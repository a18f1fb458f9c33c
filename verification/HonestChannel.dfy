/**
 * One server and any number of honest clients: both endpoints of every session,
 * the byte streams between them, key rotation and ticket redemption, interleaved freely.
 */
module HonestChannel {
  import opened Wrappers
  import opened Bytes
  import opened Framing
  import opened Pipes
  import opened Protocol
  import ReplayGuard
  import SessionStore
  import KeyRotation
  import RL = RecordLayer
  import S = ServerConnection
  import C = ClientConnection

  datatype Params = Params(server: S.Config, client: C.Config, rotateAfterMs: int, sigIndex: nat) {
    function Suite(): Suite { server.suite }

    function Max(): nat { server.maxMessageBytes }

    /** Both sides run the same suite and configuration, and the server signs with its own key. */
    ghost predicate Valid() {
      && Suite().Sound()
      && client == C.Config(server.suite, server.imperial, server.maxMessageBytes, 1)
      && server.sigKeys == Suite().sigPair(sigIndex)
    }
  }

  /** What identifies a session; no endpoint reads it. */
  datatype Terms = Terms(
    correlationId: string,
    sigIndex: nat,              // the client's signing key pair
    kemPublicKey: bytes,
    kem: nat,                   // which generated key pair the server pinned
    coin: nat,                  // the client's encapsulation randomness
    issuedAt: int)              // when the server issued the ticket

  /** One direction: its bytes, the messages sent and not handled yet, and the nonces of all messages ever sent. */
  datatype Link = Link(pipe: Pipe, pending: seq<Wire>, nonces: seq<string>)

  /** What has happened in a session; no endpoint reads it. */
  datatype Log = Log(
    sent: seq<Delivery>,        // what the client sent, with the service it is for
    routed: seq<Delivery>,      // what the router ran on
    replied: seq<Delivery>,     // what the server sent back
    handled: seq<Delivery>,     // what the client's handler received
    failures: seq<Failure>,     // every failure at either end
    clean: bool)                // nothing from outside has gone wrong so far

  datatype Session = Session(client: C.Client, conn: S.Conn, up: Link, down: Link, terms: Terms, log: Log)

  datatype Action =
    | Connect(cenv: C.Env)
    | UpArrive(n: nat)
    | DownArrive(n: nat)
    | ServerRun(senv: S.Env, kemIndex: nat)
    | Settle(senv: S.Env, answer: Option<bytes>)
    | ServerTimeout(senv: S.Env)
    | ServerClose
    | ClientRun(cenv: C.Env)
    | ClientSend(cenv: C.Env, serviceId: string, body: bytes)
    | ClientClose(cenv: C.Env)

  // ---------- One direction ----------

  /** A message whose frame fits is written. */
  function Put(p: Params, link: Link, send: Option<Wire>): Link {
    if send.None? then link
    else
      var frame := Frame(p.Suite().encode(send.value), p.Max());
      if frame.Err? then link
      else Link(link.pipe.Write(frame.value), link.pending + [send.value], link.nonces + [send.value.nonce.GetOr("")])
  }

  function Arrived(p: Params, link: Link, n: nat): Link
    requires n <= |link.pipe.inflight|
  {
    var q := link.pipe.Arrive(n, p.Max());
    if q.Some? then link.(pipe := q.value) else link
  }

  /** The first queued message is taken to be handled. */
  function Taken(link: Link): Link
    requires link.pipe.queue != []
  {
    link.(pipe := link.pipe.Pop(), pending := if link.pending == [] then [] else link.pending[1..])
  }

  // ---------- One session ----------

  /** Failures that come from the surroundings: policy, size limits, the router, timers. */
  predicate FromOutside(f: Failure) {
    f in {AllowlistRejected, CertInvalid, FrameTooLong, SealFailed, RouteFailed, TimedOut}
  }

  /** No failure from outside, and a message only under a nonce not used on this stream before. */
  predicate Calm(link: Link, out: Output) {
    && (out.failure.Some? ==> !FromOutside(out.failure.value))
    && (out.send.Some? ==> out.send.value.nonce.GetOr("") !in link.nonces)
  }

  /** The next message is handled within the clock skew of its timestamp. */
  predicate Timely(link: Link, purgeTime: int, now: int) {
    link.pending != [] && Guarded(link.pending[0]) ==>
      ReplayGuard.InSkew(ReplayGuard.DEFAULTS, CallOf(link.pending[0], purgeTime, now))
  }

  function Listed<T>(o: Option<T>): seq<T> {
    if o.Some? then [o.value] else []
  }

  /** What goes back once the router has answered: the answer, for the service that was asked. */
  function Reply(c: S.Conn, answer: Option<bytes>): Option<Delivery> {
    if answer.Some? && c.routing.Some? then Some(Delivery(c.routing.value.serviceId, answer.value)) else None
  }

  /** The server's outcome takes effect: its message goes down the stream, the rest is recorded. */
  function ServerDid(p: Params, s: Session, r: S.Outcome, fine: bool): Session {
    s.(conn := r.conn,
       down := Put(p, s.down, r.out.send),
       log := s.log.(routed := s.log.routed + Listed(r.out.delivered),
                     failures := s.log.failures + Listed(r.out.failure),
                     clean := s.log.clean && fine && Calm(s.down, r.out)))
  }

  function ClientDid(p: Params, s: Session, r: C.Outcome, fine: bool): Session {
    s.(client := r.client,
       up := Put(p, s.up, r.out.send),
       log := s.log.(handled := s.log.handled + Listed(r.out.delivered),
                     failures := s.log.failures + Listed(r.out.failure),
                     clean := s.log.clean && fine && Calm(s.up, r.out)))
  }

  /** A clock that has started and a nonce that is not empty. */
  predicate Sane(now: int, nonce: string) {
    now > 0 && nonce != ""
  }

  predicate CanAct(p: Params, s: Session, a: Action) {
    match a
    case Connect(env) => s.client.phase == C.Unconnected && Sane(env.now, env.nonce)
    case UpArrive(n) => n <= |s.up.pipe.inflight|
    case DownArrive(n) => n <= |s.down.pipe.inflight|
    case ServerRun(env, kemIndex) =>
      s.up.pipe.queue != [] && s.conn.routing.None? && Sane(env.now, env.nonce) && env.kem == p.Suite().kemPair(kemIndex)
    case Settle(env, _) => s.conn.routing.Some? && Sane(env.now, env.nonce)
    case ServerTimeout(env) => Sane(env.now, env.nonce)
    case ServerClose => true
    case ClientRun(env) => s.down.pipe.queue != [] && Sane(env.now, env.nonce)
    case ClientSend(env, _, _) => Sane(env.now, env.nonce) && C.Ended(s.client.phase) && s.client.aesKey.Some?
    case ClientClose(env) => Sane(env.now, env.nonce)
  }

  /** What the server makes of its next message. */
  function ServerHandles(p: Params, s: Session, env: S.Env): S.Outcome
    requires s.up.pipe.queue != []
  {
    S.OnMessage(p.server, env, s.conn, s.up.pipe.queue[0])
  }

  /** The session with that message taken, and what it fixes of the session's terms. */
  function ServerTakes(p: Params, s: Session, env: S.Env, kemIndex: nat): Session
    requires s.up.pipe.queue != []
  {
    var r := ServerHandles(p, s, env);
    s.(up := Taken(s.up),
       terms := s.terms.(kem := if r.out.activated then kemIndex else s.terms.kem,
                         issuedAt := if r.conn.phase == S.Established && s.conn.phase != S.Established then env.now else s.terms.issuedAt))
  }

  function ClientTakes(s: Session, env: C.Env): Session
    requires s.down.pipe.queue != []
  {
    s.(down := Taken(s.down), terms := s.terms.(coin := if s.client.phase == C.ClientHelloSent then env.coin else s.terms.coin))
  }

  /** The session after an action; an action that is not possible changes nothing. */
  function Act(p: Params, s: Session, a: Action): Session {
    if !CanAct(p, s, a) then s
    else
      match a
      case Connect(env) => ClientDid(p, s, C.Connected(p.client, env, s.client), true)
      case UpArrive(n) => s.(up := Arrived(p, s.up, n))
      case DownArrive(n) => s.(down := Arrived(p, s.down, n))
      case ServerRun(env, kemIndex) => 
        ServerDid(p, ServerTakes(p, s, env, kemIndex), ServerHandles(p, s, env), Timely(s.up, env.purgeTime, env.now))
      case Settle(env, answer) =>
        ServerDid(p, s.(log := s.log.(replied := s.log.replied + Listed(Reply(s.conn, answer)))), S.OnRouted(p.server, env, s.conn, answer),
                  ReplyFits(p, s.conn, answer))
      case ServerTimeout(env) => ServerDid(p, s, S.Fail(p.server, env, s.conn, TimedOut), true)
      case ServerClose => s.(conn := S.OnClosed(s.conn), log := s.log.(clean := false))
      case ClientRun(env) =>
        ClientDid(p, ClientTakes(s, env), C.OnMessage(p.client, env, s.client, s.down.pipe.queue[0]),
                  Timely(s.down, env.purgeTime, env.now))
      case ClientSend(env, serviceId, body) =>
        ClientDid(p, s.(log := s.log.(sent := s.log.sent + [Delivery(serviceId, body)])), C.Sent(p.client, env, s.client, serviceId, body),
                  SendFits(p, s.client, env, serviceId, body))
      case ClientClose(env) => ClientDid(p, s, C.Disconnected(p.client, env, s.client), false)
  }

  /** The reply's cartouche header is short enough to be accepted back. */
  predicate ReplyFits(p: Params, c: S.Conn, answer: Option<bytes>)
    requires c.routing.Some?
  {
    answer.Some? ==>
      c.layer.HeaderFits(p.Suite().sealing,
        RL.RecordPayload(RL.Application, c.routing.value.serviceId, answer.value, c.routing.value.timestamp), c.sendSequence + 1)
  }

  predicate SendFits(p: Params, c: C.Client, env: C.Env, serviceId: string, body: bytes) {
    c.layer.HeaderFits(p.Suite().sealing, RL.RecordPayload(RL.Application, serviceId, body, env.now), c.sendSequence + 1)
  }

  // ---------- The whole system ----------

  /** The rotating key, the consumed tickets, and every session. */
  datatype System = System(rotation: KeyRotation.Rotation, consumed: seq<string>, sessions: seq<Session>)

  datatype Step =
    | Open(correlationId: string, sigIndex: nat, kemPublicKey: bytes)
    | Rotate(now: int)
    | Redeem(attempt: SessionStore.Attempt)
    | In(k: nat, action: Action)

  const NO_LINK := Link(EMPTY, [], [])

  const NO_LOG := Log([], [], [], [], [], true)

  function NewSession(p: Params, correlationId: string, sigIndex: nat, kemPublicKey: bytes): Session {
    Session(C.Fresh(correlationId, p.Suite().sigPair(sigIndex), kemPublicKey), S.FRESH, NO_LINK, NO_LINK,
            Terms(correlationId, sigIndex, kemPublicKey, 0, 0, 0), NO_LOG)
  }

  /** The keys a client hello would pin now. */
  function Active(p: Params, sys: System, now: int): KeyRotation.Rotation {
    KeyRotation.Activated(p.Suite().kemPair, sys.rotation, p.rotateAfterMs, now)
  }

  predicate Enabled(p: Params, sys: System, step: Step) {
    match step
    case Open(correlationId, _, kemPublicKey) => correlationId != "" && kemPublicKey != []
    case Rotate(_) => true
    case Redeem(_) => true
    case In(k, action) =>
      k < |sys.sessions| && CanAct(p, sys.sessions[k], action)
      && (action.ServerRun? ==>
            && Active(p, sys, action.senv.now).generated == action.kemIndex + 1
            && Active(p, sys, action.senv.now).current.pair == action.senv.kem)
  }

  /** The system after a step; a step that is not possible changes nothing. */
  function Next(p: Params, sys: System, step: Step): System {
    if !Enabled(p, sys, step) then sys
    else
      match step
      case Open(correlationId, sigIndex, kemPublicKey) =>
        sys.(sessions := sys.sessions + [NewSession(p, correlationId, sigIndex, kemPublicKey)])
      case Rotate(now) => sys.(rotation := KeyRotation.Rotated(p.Suite().kemPair, sys.rotation, now))
      case Redeem(attempt) => sys.(consumed := SessionStore.After(p.Suite().tickets, sys.consumed, attempt))
      case In(k, action) =>
        var acted := sys.(sessions := sys.sessions[k := Act(p, sys.sessions[k], action)]);
        if action.ServerRun? && ServerHandles(p, sys.sessions[k], action.senv).out.activated
        then acted.(rotation := Active(p, sys, action.senv.now))
        else acted
  }

  /** The system after any list of steps, from a server that has just started. */
  function End(p: Params, start: int, steps: seq<Step>): System {
    if steps == [] then System(KeyRotation.Initial(p.Suite().kemPair, start), [], [])
    else Next(p, End(p, start, steps[..|steps| - 1]), steps[|steps| - 1])
  }
}
