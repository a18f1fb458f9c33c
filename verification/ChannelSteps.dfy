/** The handshake of an honest session, message by message. */
module ChannelSteps {
  import opened Wrappers
  import opened Bytes
  import opened Framing
  import opened Pipes
  import opened Protocol
  import opened HonestChannel
  import opened ChannelInvariant
  import ReplayGuard
  import SessionStore
  import RL = RecordLayer
  import S = ServerConnection
  import C = ClientConnection

  // ---------- What an outcome does to a session ----------

  /** The message of an outcome, if any, can be written. */
  predicate Writable(p: Params, o: Output) {
    o.send.Some? ==> Fits(p.Suite(), p.Max(), o.send.value)
  }

  /** Nothing but a failure, and at most a handshake error to the peer. */
  predicate GivesUp(p: Params, o: Output, why: Failure) {
    && o.failure == Some(why) && o.delivered.None?
    && (o.send.Some? ==> o.send.value.kind == HandshakeError) && Writable(p, o)
  }

  lemma ServerFails(p: Params, env: S.Env, c: S.Conn, why: Failure)
    requires p.Valid()
    ensures S.Fail(p.server, env, c, why).conn == c && GivesUp(p, S.Fail(p.server, env, c, why).out, why)
    ensures S.Ended(c.phase) ==> S.Fail(p.server, env, c, why).out.send.None?
  {
    hide Fits;
  }

  lemma CoreListed(wires: seq<Wire>, send: Option<Wire>)
    ensures Core(wires + Listed(send)) == Core(wires) + Core(Listed(send))
    ensures Core(Listed(send)) == if send.Some? && send.value.kind != HandshakeError then [send.value] else []
  {
    if send.Some? {
      CorePut(wires, send.value);
      assert [send.value][1..] == [];
    } else {
      assert wires + [] == wires;
    }
  }

  /** A written message joins its stream. */
  lemma PutFacts(p: Params, l: Link, o: Output)
    requires p.Valid() && LinkOk(p, l) && Writable(p, o)
    ensures LinkOk(p, Put(p, l, o.send)) && (o.send.None? ==> Put(p, l, o.send) == l)
    ensures Put(p, l, o.send).pending == l.pending + Listed(o.send)
    ensures l.pending == [] ==> Put(p, l, o.send).pending == Listed(o.send)
    ensures Core(Put(p, l, o.send).pending) == Core(l.pending) + Core(Listed(o.send))
  {
    hide Carries, Frame, Core, LinkOk;
    assert [] + Listed(o.send) == Listed(o.send);
    PutKeeps(p, l, o.send);
    CoreListed(l.pending, o.send);
  }

  /** What the server's outcome changes. */
  lemma ServerDidFacts(p: Params, s: Session, r: S.Outcome, fine: bool)
    requires p.Valid() && LinkOk(p, s.down) && Writable(p, r.out)
    ensures
      var t := ServerDid(p, s, r, fine);
      && t == s.(conn := r.conn, down := t.down, log := t.log)
      && LinkOk(p, t.down) && (r.out.send.None? ==> t.down == s.down)
      && t.down.pending == s.down.pending + Listed(r.out.send)
      && Core(t.down.pending) == Core(s.down.pending) + Core(Listed(r.out.send))
      && t.log == s.log.(routed := if r.out.delivered.None? then s.log.routed else s.log.routed + [r.out.delivered.value],
                         failures := if r.out.failure.None? then s.log.failures else s.log.failures + [r.out.failure.value],
                         clean := s.log.clean && fine && Calm(s.down, r.out))
  {
    hide LinkOk, Put, Core, Calm, Fits;
    assert s.log.routed + [] == s.log.routed && s.log.failures + [] == s.log.failures;
    PutFacts(p, s.down, r.out);
  }

  lemma ClientDidFacts(p: Params, s: Session, r: C.Outcome, fine: bool)
    requires p.Valid() && LinkOk(p, s.up) && Writable(p, r.out)
    ensures
      var t := ClientDid(p, s, r, fine);
      && t == s.(client := r.client, up := t.up, log := t.log)
      && LinkOk(p, t.up) && (r.out.send.None? ==> t.up == s.up)
      && t.up.pending == s.up.pending + Listed(r.out.send)
      && (s.up.pending == [] ==> t.up.pending == Listed(r.out.send))
      && t.log == s.log.(handled := if r.out.delivered.None? then s.log.handled else s.log.handled + [r.out.delivered.value],
                         failures := if r.out.failure.None? then s.log.failures else s.log.failures + [r.out.failure.value],
                         clean := s.log.clean && fine && Calm(s.up, r.out))
  {
    hide LinkOk, Put, Core, Calm, Fits;
    assert s.log.handled + [] == s.log.handled && s.log.failures + [] == s.log.failures;
    PutFacts(p, s.up, r.out);
  }

  /** The server has given up before both ends finished. */
  lemma ServerStalls(p: Params, s: Session, r: S.Outcome, fine: bool, why: Failure)
    requires p.Valid() && Identity(p, s.terms, s.client) && LinkOk(p, s.up) && LinkOk(p, s.down)
    requires (s.client.phase == C.ClientHelloSent || s.client.phase == C.ClientAuthSent) && !s.client.handshakeComplete
    requires s.up.pending == [] && Core(s.down.pending) == [] && r.conn.routing.None? && GivesUp(p, r.out, why)
    requires s.log.clean && fine ==> FromOutside(why)
    ensures Stalled(p, ServerDid(p, s, r, fine)) && SessionInv(p, ServerDid(p, s, r, fine))
  {
    hide Carries, Core, LinkOk, ServerDid, Identity, FromOutside, Fits,
         AtStart, HelloInFlight, HelloAnswered, AuthInFlight, AuthAnswered, Running;
    ServerDidFacts(p, s, r, fine);
    CoreListed(s.down.pending, r.out.send);
  }

  /** The client has given up before both ends finished. */
  lemma ClientStalls(p: Params, s: Session, r: C.Outcome, fine: bool, why: Failure)
    requires p.Valid() && Identity(p, s.terms, r.client) && LinkOk(p, s.up) && LinkOk(p, s.down)
    requires (r.client.phase == C.ClientHelloSent || r.client.phase == C.ClientAuthSent) && !r.client.handshakeComplete
    requires s.up.pending == [] && Core(s.down.pending) == [] && s.conn.routing.None?
    requires r.out.failure == Some(why) && r.out.send.None?
    requires s.log.clean && fine ==> FromOutside(why)
    ensures Stalled(p, ClientDid(p, s, r, fine)) && SessionInv(p, ClientDid(p, s, r, fine))
  {
    hide Carries, Core, LinkOk, ClientDid, Identity, FromOutside,
         AtStart, HelloInFlight, HelloAnswered, AuthInFlight, AuthAnswered, Running;
    ClientDidFacts(p, s, r, fine);
  }

  /** A message of this session other than an error. */
  predicate Polite(t: Terms, w: Wire) {
    w.correlationId == Some(t.correlationId) && w.nonce.Some? && w.kind != HandshakeError
  }

  /** Nothing failed and at most such a message was sent: the session stays undisturbed while it is clean. */
  lemma ServerQuiet(p: Params, s: Session, r: S.Outcome, fine: bool)
    requires p.Valid() && LinkOk(p, s.down) && Writable(p, r.out) && r.out.failure.None?
    requires r.out.send.Some? ==> Polite(s.terms, r.out.send.value)
    requires s.log.clean && fine ==> Undisturbed(s.(conn := r.conn))
    ensures ServerDid(p, s, r, fine).log.clean ==> Undisturbed(ServerDid(p, s, r, fine))
  {
    hide LinkOk, ServerDid, Fresh, Fits, Core;
    ServerDidFacts(p, s, r, fine);
    var t := ServerDid(p, s, r, fine);
    if t.log.clean && r.out.send.Some? {
      FreshPut(p, s.terms.correlationId, s.down, s.client.guard, r.out.send.value);
    }
    assert t.down == Put(p, s.down, r.out.send) by { DownOf(p, s, r, fine); }
  }

  lemma DownOf(p: Params, s: Session, r: S.Outcome, fine: bool)
    ensures ServerDid(p, s, r, fine).down == Put(p, s.down, r.out.send)
  {
    hide Put, Calm;
  }

  lemma ClientQuiet(p: Params, s: Session, r: C.Outcome, fine: bool)
    requires p.Valid() && LinkOk(p, s.up) && Writable(p, r.out) && r.out.failure.None?
    requires r.out.send.Some? ==> Polite(s.terms, r.out.send.value)
    requires s.log.clean && fine ==> Undisturbed(s.(client := r.client))
    ensures ClientDid(p, s, r, fine).log.clean ==> Undisturbed(ClientDid(p, s, r, fine))
  {
    hide LinkOk, ClientDid, Fresh, Fits, Core;
    ClientDidFacts(p, s, r, fine);
    var t := ClientDid(p, s, r, fine);
    if t.log.clean && r.out.send.Some? {
      FreshPut(p, s.terms.correlationId, s.up, s.conn.guard, r.out.send.value);
    }
    assert t.up == Put(p, s.up, r.out.send) by { UpOf(p, s, r, fine); }
  }

  lemma UpOf(p: Params, s: Session, r: C.Outcome, fine: bool)
    ensures ClientDid(p, s, r, fine).up == Put(p, s.up, r.out.send)
  {
    hide Put, Calm;
  }

  // ---------- Receiving ----------

  function ServerChecked(s: Session, env: S.Env): S.Conn
    requires s.up.pending != []
  {
    s.conn.(guard := Consulted(s.conn.guard, s.up.pending[0], env.purgeTime, env.now))
  }

  /** A well-formed message for this channel reaches its handler unless the guard refuses it, which on a clean session it does not. */
  lemma ServerReceives(p: Params, s: Session, env: S.Env)
    requires p.Valid() && LinkOk(p, s.up) && s.up.pipe.queue != []
    requires s.up.pending != [] ==> ValidSchema(s.up.pending[0])
    requires s.up.pending != [] ==> s.conn.correlationId.None? || s.conn.correlationId == s.up.pending[0].correlationId
    requires s.log.clean ==> Undisturbed(s)
    ensures s.up.pending != [] && LinkOk(p, Taken(s.up)) && Taken(s.up).pending == s.up.pending[1..]
    ensures ServerHandles(p, s, env) ==
      if Admits(s.conn.guard, s.up.pending[0], env.purgeTime, env.now)
      then S.Dispatch(p.server, env, ServerChecked(s, env), s.up.pending[0])
      else S.Fail(p.server, env, ServerChecked(s, env), ReplayRejected)
    ensures s.log.clean && Timely(s.up, env.purgeTime, env.now) ==> Admits(s.conn.guard, s.up.pending[0], env.purgeTime, env.now)
    ensures s.log.clean ==> Fresh(s.terms.correlationId, Taken(s.up), ServerChecked(s, env).guard)
  {
    hide Carries, LinkOk, ValidSchema, S.Dispatch, S.Fail, Fresh, Admits, Consulted, Timely, NoErrors, Pipe.Pop;
    TakenKeeps(p, s.up);
    var w := s.up.pending[0];
    assert p.Suite().decode(p.Suite().encode(w)) == Some(w);
    if s.log.clean {
      FreshTaken(s.terms.correlationId, s.up, s.conn.guard, env.purgeTime, env.now);
    }
  }

  function ClientChecked(s: Session, env: C.Env): C.Client
    requires s.down.pending != []
  {
    s.client.(guard := Consulted(s.client.guard, s.down.pending[0], env.purgeTime, env.now))
  }

  function ClientHandles(p: Params, s: Session, env: C.Env): C.Outcome
    requires s.down.pipe.queue != []
  {
    C.OnMessage(p.client, env, s.client, s.down.pipe.queue[0])
  }

  lemma ClientReceives(p: Params, s: Session, env: C.Env)
    requires p.Valid() && LinkOk(p, s.down) && s.down.pipe.queue != []
    requires s.down.pending != [] ==> Addressed(s.down.pending[0], s.down.pending[0].kind, s.client.correlationId)
    requires s.log.clean ==> Undisturbed(s)
    ensures s.down.pending != [] && LinkOk(p, Taken(s.down)) && Taken(s.down).pending == s.down.pending[1..]
    ensures ClientHandles(p, s, env) ==
      if Admits(s.client.guard, s.down.pending[0], env.purgeTime, env.now)
      then C.Dispatch(p.client, env, ClientChecked(s, env), s.down.pending[0])
      else C.Fail(ClientChecked(s, env), ReplayRejected)
    ensures s.log.clean && Timely(s.down, env.purgeTime, env.now) ==> Admits(s.client.guard, s.down.pending[0], env.purgeTime, env.now)
    ensures s.log.clean ==> Fresh(s.terms.correlationId, Taken(s.down), ClientChecked(s, env).guard)
    ensures s.log.clean ==> NoErrors(Taken(s.down).pending)
  {
    hide Carries, LinkOk, ValidSchema, C.Dispatch, C.Fail, Fresh, Admits, Consulted, Timely, Pipe.Pop;
    TakenKeeps(p, s.down);
    var w := s.down.pending[0];
    assert p.Suite().decode(p.Suite().encode(w)) == Some(w);
    if s.log.clean {
      FreshTaken(s.terms.correlationId, s.down, s.client.guard, env.purgeTime, env.now);
    }
  }

  // ---------- The client hello ----------

  /** A client that connects has its hello on the way, or nothing has happened. */
  lemma Connects(p: Params, s: Session, env: C.Env)
    requires p.Valid() && SessionInv(p, s) && AtStart(p, s) && CanAct(p, s, Connect(env))
    ensures SessionInv(p, Act(p, s, Connect(env)))
    ensures HelloInFlight(p, Act(p, s, Connect(env))) || AtStart(p, Act(p, s, Connect(env)))
  {
    hide Carries, Core, ClientDid, LinkOk, Fits, Fresh, NoErrors, HelloAnswered, AuthInFlight, AuthAnswered, Running, Stalled,
         S.OnMessage, C.OnMessage, S.OnRouted, C.Sent, C.Disconnected, S.Fail, ServerDid, ServerTakes, ClientTakes, Arrived;
    var r := C.Connected(p.client, env, s.client);
    var t := Act(p, s, Connect(env));
    ClientDidFacts(p, s, r, true);
    if r.out.send.Some? {
      ClientQuiet(p, s, r, true);
    }
    assert if r.out.send.Some? then HelloInFlight(p, t) else AtStart(p, t);
  }

  // ---------- The server's answer ----------

  lemma HelloIsGood(p: Params, t: Terms, env: S.Env)
    requires p.Valid() && t.correlationId != "" && Sane(env.now, env.nonce) && env.kem == p.Suite().kemPair(t.kem)
    ensures IsServerHello(p, t, S.HelloMessage(p.server, env, t.correlationId))
    ensures Polite(t, S.HelloMessage(p.server, env, t.correlationId))
  {
  }

  /** The server has answered a hello. */
  lemma AnswerSent(p: Params, u: Session, env: S.Env, r: S.Outcome, fine: bool)
    requires p.Valid() && Identity(p, u.terms, u.client) && LinkOk(p, u.up) && LinkOk(p, u.down) && Sane(env.now, env.nonce)
    requires u.client.phase == C.ClientHelloSent && Keyless(u.client) && Untouched(u)
    requires u.up.pending == [] && Core(u.down.pending) == [] && env.kem == p.Suite().kemPair(u.terms.kem)
    requires r.conn == S.FRESH.(guard := r.conn.guard, phase := S.ServerHelloSent, correlationId := Some(u.terms.correlationId),
                                    pinnedKem := Some(env.kem))
    requires r.out == SILENT.(send := Some(S.HelloMessage(p.server, env, u.terms.correlationId)), activated := true) && Writable(p, r.out)
    requires u.log.clean && fine ==> Undisturbed(u.(conn := r.conn))
    ensures SessionInv(p, ServerDid(p, u, r, fine)) && HelloAnswered(p, ServerDid(p, u, r, fine))
  {
    hide Carries, Core, LinkOk, ServerDid, Fits, Fresh, S.HelloMessage, IsServerHello,
         AtStart, HelloInFlight, AuthInFlight, AuthAnswered, Running, Stalled;
    ServerDidFacts(p, u, r, fine);
    CoreListed(u.down.pending, r.out.send);
    HelloIsGood(p, u.terms, env);
    ServerQuiet(p, u, r, fine);
  }

  /** A message handled at the server. */
  lemma ServerTurn(p: Params, s: Session, env: S.Env, kemIndex: nat)
    requires CanAct(p, s, ServerRun(env, kemIndex))
    ensures Act(p, s, ServerRun(env, kemIndex)) ==
      ServerDid(p, ServerTakes(p, s, env, kemIndex), ServerHandles(p, s, env), Timely(s.up, env.purgeTime, env.now))
    ensures s.up.pipe.queue != [] && s.conn.routing.None? && Sane(env.now, env.nonce) && env.kem == p.Suite().kemPair(kemIndex)
  {
    hide S.OnMessage, ServerDid, ServerTakes, Timely;
  }

  lemma ClientTurn(p: Params, s: Session, env: C.Env)
    requires CanAct(p, s, ClientRun(env))
    ensures Act(p, s, ClientRun(env)) ==
      ClientDid(p, ClientTakes(s, env), ClientHandles(p, s, env), Timely(s.down, env.purgeTime, env.now))
    ensures s.down.pipe.queue != [] && Sane(env.now, env.nonce)
  {
    hide C.OnMessage, ClientDid, ClientTakes, Timely;
  }

  /** The client hello arrives: the server pins its active key and answers, unless something from outside stops it. */
  lemma HelloArrives(p: Params, s: Session, env: S.Env, kemIndex: nat)
    requires p.Valid() && SessionInv(p, s) && HelloInFlight(p, s) && CanAct(p, s, ServerRun(env, kemIndex))
    ensures
      var t := Act(p, s, ServerRun(env, kemIndex));
      SessionInv(p, t) && (HelloAnswered(p, t) || Stalled(p, t))
  {
    hide Carries, Core, Put, LinkOk, Fits, Fresh, Consulted, Admits, S.Fail, Timely, Pipe.Pop, S.HelloMessage, ValidSchema, IsServerHello, Act,
         ServerDid, CanAct, S.OnMessage, AtStart, HelloAnswered, AuthInFlight, AuthAnswered, Running, Stalled;
    ServerTurn(p, s, env, kemIndex);
    ServerReceives(p, s, env);
    var r := ServerHandles(p, s, env);
    var u := ServerTakes(p, s, env, kemIndex);
    var fine := Timely(s.up, env.purgeTime, env.now);
    if !Admits(s.conn.guard, s.up.pending[0], env.purgeTime, env.now) {
      ServerFails(p, env, ServerChecked(s, env), ReplayRejected);
      ServerStalls(p, u, r, fine, ReplayRejected);
    } else {
      var pinned := ServerChecked(s, env).(correlationId := Some(s.terms.correlationId), pinnedKem := Some(env.kem));
      ServerFails(p, env, pinned, FrameTooLong);
      if Fits(p.Suite(), p.Max(), S.HelloMessage(p.server, env, s.terms.correlationId)) {
        AnswerSent(p, u, env, r, fine);
      } else {
        ServerStalls(p, u, r, fine, FrameTooLong);
      }
    }
  }

  // ---------- The client's authentication ----------

  /** What the client makes of the server's hello. */
  lemma HelloHandled(p: Params, t: Terms, env: C.Env, c: C.Client, w: Wire)
    requires p.Valid() && c.phase == C.ClientHelloSent && Identity(p, t, c) && Keyless(c) && IsServerHello(p, t, w) && t.coin == env.coin
    ensures
      var met := c.(serverSigPublicKey := Some(p.server.sigKeys.publicKey));
      var keyed := met.(aesKey := Some(Key(p, t)), layer := Channel(p, t));
      C.Dispatch(p.client, env, c, w) ==
        if !env.certValid then C.Fail(met, CertInvalid)
        else C.Written(p.client, keyed.(phase := C.ClientAuthSent), keyed, C.AuthMessage(p.client, env, keyed, Capsule(p, t)))
  {
    hide C.Written, C.AuthMessage, ValidSchema;
    assert p.Suite().kemPair(t.kem).publicKey != [] && p.Suite().sigPair(p.sigIndex).publicKey != [];
  }

  /** The encapsulated key that the client sends. */
  function Capsule(p: Params, t: Terms): bytes {
    p.Suite().encapsulate(p.Suite().kemPair(t.kem).publicKey, t.coin).0
  }

  lemma AuthIsGood(p: Params, t: Terms, env: C.Env, c: C.Client)
    requires p.Valid() && Identity(p, t, c) && Sane(env.now, env.nonce)
    ensures IsAuth(p, t, C.AuthMessage(p.client, env, c, Capsule(p, t))) && Polite(t, C.AuthMessage(p.client, env, c, Capsule(p, t)))
  {
    var data := p.Suite().clientAuthData(c.sigKeys.publicKey, c.kemPublicKey, c.correlationId, env.nonce, env.now);
    assert p.Suite().verify(p.Suite().sigPair(t.sigIndex).publicKey, data, p.Suite().sign(p.Suite().sigPair(t.sigIndex).privateKey, data));
  }

  /** The client has derived the key and answered. */
  lemma AuthSent(p: Params, u: Session, env: C.Env, r: C.Outcome, fine: bool)
    requires p.Valid() && Identity(p, u.terms, u.client) && LinkOk(p, u.up) && LinkOk(p, u.down) && Sane(env.now, env.nonce)
    requires u.client.phase == C.ClientHelloSent && Keyless(u.client) && Untouched(u) && ServerWaiting(p, u.terms, u.conn)
    requires u.up.pending == [] && Core(u.down.pending) == []
    requires r.client == u.client.(guard := r.client.guard, phase := C.ClientAuthSent, serverSigPublicKey := Some(p.server.sigKeys.publicKey),
                                   aesKey := Some(Key(p, u.terms)), layer := Channel(p, u.terms))
    requires r.out.send == Some(C.AuthMessage(p.client, env, r.client.(phase := C.ClientHelloSent), Capsule(p, u.terms)))
    requires r.out == SILENT.(send := r.out.send) && Writable(p, r.out)
    requires u.log.clean && fine ==> Undisturbed(u.(client := r.client))
    ensures SessionInv(p, ClientDid(p, u, r, fine)) && AuthInFlight(p, ClientDid(p, u, r, fine))
  {
    hide Carries, Core, LinkOk, ClientDid, Fits, Fresh, C.AuthMessage, IsAuth, Key, Channel, Capsule,
         AtStart, HelloInFlight, HelloAnswered, AuthAnswered, Running, Stalled;
    ClientDidFacts(p, u, r, fine);
    AuthIsGood(p, u.terms, env, r.client.(phase := C.ClientHelloSent));
    ClientQuiet(p, u, r, fine);
  }

  /** The server's hello arrives: the client derives the channel key from the pinned key and authenticates. */
  lemma AnswerArrives(p: Params, s: Session, env: C.Env)
    requires p.Valid() && SessionInv(p, s) && HelloAnswered(p, s) && CanAct(p, s, ClientRun(env))
    requires s.down.pending != [] ==> s.down.pending[0].kind != HandshakeError
    ensures
      var t := Act(p, s, ClientRun(env));
      SessionInv(p, t) && (AuthInFlight(p, t) || Stalled(p, t))
  {
    hide Carries, Core, Put, LinkOk, Fits, Fresh, Consulted, Admits, Timely, Pipe.Pop, C.AuthMessage, ValidSchema, Act, ClientDid, CanAct,
         C.OnMessage, C.Dispatch, Key, Channel, Capsule, AtStart, HelloInFlight, AuthInFlight, AuthAnswered, Running, Stalled;
    ClientTurn(p, s, env);
    TakenKeeps(p, s.down);
    CoreTaken(s.down);
    ClientReceives(p, s, env);
    var r := ClientHandles(p, s, env);
    var u := ClientTakes(s, env);
    var fine := Timely(s.down, env.purgeTime, env.now);
    var c := ClientChecked(s, env);
    if !Admits(s.client.guard, s.down.pending[0], env.purgeTime, env.now) {
      ClientStalls(p, u, r, fine, ReplayRejected);
    } else {
      HelloHandled(p, u.terms, env, c, s.down.pending[0]);
      if !env.certValid {
        ClientStalls(p, u, r, fine, CertInvalid);
      } else if r.out.send.None? {
        ClientStalls(p, u, r, fine, FrameTooLong);
      } else {
        AuthSent(p, u, env, r, fine);
      }
    }
  }

  // ---------- The server's authentication ----------

  function TicketOf(p: Params, t: Terms, env: S.Env): string {
    SessionStore.Issued(p.Suite().tickets, t.correlationId, Key(p, t), ClientKey(p, t), p.server.sigKeys.publicKey,
                        env.now, p.server.sessionTtlMs, env.iv)
  }

  /** What the server makes of an honest client's authentication. */
  lemma AuthHandled(p: Params, t: Terms, env: S.Env, c: S.Conn, w: Wire)
    requires p.Valid() && ServerWaiting(p, t, c) && IsAuth(p, t, w) && t.kemPublicKey != []
    ensures S.Dispatch(p.server, env, c, w) ==
      if !env.allowed(ClientKey(p, t)) then S.Fail(p.server, env, c, AllowlistRejected)
      else S.Finish(p.server, env, c.(clientKey := Some(ClientKey(p, t))), t.correlationId, Key(p, t), TicketOf(p, t, env), S.Established)
  {
    hide S.Fail, S.Finish, ValidSchema, SessionStore.Issued;
    var u := p.Suite();
    assert u.decapsulate(u.kemPair(t.kem).privateKey, u.encapsulate(u.kemPair(t.kem).publicKey, t.coin).0)
      == Some(u.encapsulate(u.kemPair(t.kem).publicKey, t.coin).1);
    assert u.sigPair(t.sigIndex).publicKey != [] && u.encapsulate(u.kemPair(t.kem).publicKey, t.coin).0 != [];
  }

  /** When the ticket is issued matters neither to the key nor to the ticket text. */
  lemma KeyIsTimeless(p: Params, t: Terms, env: S.Env, issuedAt: int)
    ensures
      var u := t.(issuedAt := issuedAt);
      Key(p, u) == Key(p, t) && Channel(p, u) == Channel(p, t) && TicketOf(p, u, env) == TicketOf(p, t, env)
  {
  }

  lemma TicketIsGood(p: Params, t: Terms, env: S.Env)
    requires p.Valid() && t.issuedAt == env.now
    ensures GoodTicket(p, t, TicketOf(p, t, env))
  {
    hide Key;
  }

  lemma ServerAuthIsGood(p: Params, t: Terms, env: S.Env)
    requires p.Valid() && t.correlationId != "" && Sane(env.now, env.nonce) && t.issuedAt == env.now
    ensures
      var w := S.ServerAuthMessage(p.server, env, t.correlationId, TicketOf(p, t, env));
      IsServerAuth(p, t, w) && Polite(t, w)
  {
    TicketIsGood(p, t, env);
    hide GoodTicket, TicketOf;
    var data := p.Suite().serverAuthData(p.server.sigKeys.publicKey, t.correlationId, env.nonce, env.now, Some(TicketOf(p, t, env)));
    assert p.Suite().verify(p.Suite().sigPair(p.sigIndex).publicKey, data, p.Suite().sign(p.Suite().sigPair(p.sigIndex).privateKey, data));
    assert p.Suite().sign(p.Suite().sigPair(p.sigIndex).privateKey, data) != [];
  }

  /** The server has set up the channel and answered. */
  lemma TicketSent(p: Params, u: Session, env: S.Env, r: S.Outcome, fine: bool)
    requires p.Valid() && Identity(p, u.terms, u.client) && LinkOk(p, u.up) && LinkOk(p, u.down) && Sane(env.now, env.nonce)
    requires u.client.phase == C.ClientAuthSent && ClientKeyed(p, u.terms, u.client, u.log.clean) && Untouched(u)
    requires u.up.pending == [] && Core(u.down.pending) == [] && u.terms.issuedAt == env.now
    requires ServerKeyed(p, u.terms, r.conn, true) && r.conn.sendSequence == r.conn.recvSequence == 0 && r.conn.routing.None?
    requires r.out == SILENT.(send := Some(S.ServerAuthMessage(p.server, env, u.terms.correlationId, TicketOf(p, u.terms, env))))
    requires Writable(p, r.out)
    requires u.log.clean && fine ==> Undisturbed(u.(conn := r.conn))
    ensures SessionInv(p, ServerDid(p, u, r, fine)) && AuthAnswered(p, ServerDid(p, u, r, fine))
  {
    hide Carries, Core, LinkOk, ServerDid, Fits, Fresh, S.ServerAuthMessage, IsServerAuth, Key, Channel, TicketOf,
         AtStart, HelloInFlight, HelloAnswered, AuthInFlight, Running, Stalled;
    ServerDidFacts(p, u, r, fine);
    CoreListed(u.down.pending, r.out.send);
    ServerAuthIsGood(p, u.terms, env);
    ServerQuiet(p, u, r, fine);
  }

  /** The client's authentication arrives: the server derives the same key, whatever rotations came between. */
  lemma AuthArrives(p: Params, s: Session, env: S.Env, kemIndex: nat)
    requires p.Valid() && SessionInv(p, s) && AuthInFlight(p, s) && CanAct(p, s, ServerRun(env, kemIndex))
    ensures
      var t := Act(p, s, ServerRun(env, kemIndex));
      SessionInv(p, t) && (AuthAnswered(p, t) || Stalled(p, t))
  {
    hide Carries, Core, Put, LinkOk, Fits, Fresh, Consulted, Admits, S.Fail, Timely, Pipe.Pop, S.ServerAuthMessage, ValidSchema, Act, ServerDid,
         CanAct, S.OnMessage, S.Dispatch, Key, TicketOf, AtStart, HelloInFlight, HelloAnswered, AuthAnswered, Running, Stalled;
    ServerTurn(p, s, env, kemIndex);
    ServerReceives(p, s, env);
    var r := ServerHandles(p, s, env);
    var u := ServerTakes(p, s, env, kemIndex);
    var fine := Timely(s.up, env.purgeTime, env.now);
    var c := ServerChecked(s, env);
    if !Admits(s.conn.guard, s.up.pending[0], env.purgeTime, env.now) {
      ServerFails(p, env, c, ReplayRejected);
      ServerStalls(p, u, r, fine, ReplayRejected);
    } else {
      AuthHandled(p, s.terms, env, c, s.up.pending[0]);
      if !env.allowed(ClientKey(p, s.terms)) {
        ServerFails(p, env, c, AllowlistRejected);
        ServerStalls(p, u, r, fine, AllowlistRejected);
      } else {
        var keyed := c.(clientKey := Some(ClientKey(p, s.terms)), correlationId := Some(s.terms.correlationId),
                        aesKey := Some(Key(p, s.terms)), layer := Channel(p, s.terms));
        ServerFails(p, env, keyed, FrameTooLong);
        if Fits(p.Suite(), p.Max(), S.ServerAuthMessage(p.server, env, s.terms.correlationId, TicketOf(p, s.terms, env))) {
          KeyIsTimeless(p, s.terms, env, env.now);
          assert u.terms == s.terms.(issuedAt := env.now);
          TicketSent(p, u, env, r, fine);
        } else {
          ServerStalls(p, u, r, fine, FrameTooLong);
        }
      }
    }
  }

  // ---------- The end of the handshake ----------

  /** What the client makes of the server's authentication. */
  lemma TicketHandled(p: Params, t: Terms, env: C.Env, c: C.Client, w: Wire, clean: bool)
    requires p.Valid() && c.phase == C.ClientAuthSent && Identity(p, t, c) && ClientKeyed(p, t, c, clean) && IsServerAuth(p, t, w)
    ensures
      var met := c.(sessionTicket := w.sessionTicket);
      C.Dispatch(p.client, env, c, w) ==
        if c.aesKey.None? then C.Fail(met, KeyMissing)
        else C.Outcome(met.(phase := C.Established, handshakeComplete := true), SILENT)
  {
    hide Key, ValidSchema;
    assert p.Suite().sigPair(p.sigIndex).publicKey != [];
  }

  /** The client has finished. */
  lemma ChannelOpens(p: Params, u: Session, r: C.Outcome, fine: bool)
    requires p.Valid() && Identity(p, u.terms, u.client) && LinkOk(p, u.up) && LinkOk(p, u.down)
    requires ClientKeyed(p, u.terms, u.client, u.log.clean) && Untouched(u) && ServerKeyed(p, u.terms, u.conn, u.log.clean)
    requires u.up.pending == [] && Core(u.down.pending) == [] && (u.log.clean ==> NoErrors(u.down.pending))
    requires r.client.sessionTicket.Some? && GoodTicket(p, u.terms, r.client.sessionTicket.value)
    requires r.client == u.client.(guard := r.client.guard, sessionTicket := r.client.sessionTicket, phase := C.Established,
                                   handshakeComplete := true)
    requires r.out == SILENT && (u.log.clean && fine ==> Undisturbed(u.(client := r.client)))
    ensures SessionInv(p, ClientDid(p, u, r, fine)) && Running(p, ClientDid(p, u, r, fine))
  {
    hide Carries, Core, LinkOk, ClientDid, Fits, Fresh, GoodTicket, Key, Channel, NoErrors, IsRecord,
         AtStart, HelloInFlight, HelloAnswered, AuthInFlight, AuthAnswered, Stalled;
    ClientDidFacts(p, u, r, fine);
    ClientQuiet(p, u, r, fine);
    if u.log.clean {
      CoreOfClean(u.down.pending);
    }
  }

  /** The server's authentication arrives: both ends have finished, with the same key and a good ticket. */
  lemma TicketArrives(p: Params, s: Session, env: C.Env)
    requires p.Valid() && SessionInv(p, s) && AuthAnswered(p, s) && CanAct(p, s, ClientRun(env))
    requires s.down.pending != [] ==> s.down.pending[0].kind != HandshakeError
    ensures
      var t := Act(p, s, ClientRun(env));
      SessionInv(p, t) && (Running(p, t) || Stalled(p, t))
  {
    hide Carries, Core, Put, LinkOk, Fits, Fresh, Consulted, Admits, Timely, Pipe.Pop, ValidSchema, Act, ClientDid, CanAct,
         C.OnMessage, C.Dispatch, Key, Channel, GoodTicket, NoErrors,
         AtStart, HelloInFlight, HelloAnswered, AuthInFlight, Running, Stalled;
    ClientTurn(p, s, env);
    TakenKeeps(p, s.down);
    CoreTaken(s.down);
    ClientReceives(p, s, env);
    var r := ClientHandles(p, s, env);
    var u := ClientTakes(s, env);
    var fine := Timely(s.down, env.purgeTime, env.now);
    var c := ClientChecked(s, env);
    if !Admits(s.client.guard, s.down.pending[0], env.purgeTime, env.now) {
      ClientStalls(p, u, r, fine, ReplayRejected);
    } else {
      TicketHandled(p, s.terms, env, c, s.down.pending[0], s.log.clean);
      if s.client.aesKey.None? {
        ClientStalls(p, u, r, fine, KeyMissing);
      } else {
        ChannelOpens(p, u, r, fine);
      }
    }
  }
}
