/**
 * An honest session can always take its next step: while the surroundings do their part,
 * the step is possible, moves to the next stage and leaves the session clean.
 */
module ChannelProgress {
  import opened Wrappers
  import opened Bytes
  import opened Framing
  import opened Pipes
  import opened Protocol
  import opened HonestChannel
  import opened ChannelInvariant
  import opened ChannelSteps
  import opened ChannelRecords
  import ReplayGuard
  import RL = RecordLayer
  import S = ServerConnection
  import C = ClientConnection

  /** Every byte has arrived, and the next message is handled within a minute of its timestamp. */
  predicate Punctual(l: Link, purgeTime: int, now: int) {
    && l.pipe.inflight == []
    && (l.pending != [] && l.pending[0].timestamp.Some? ==>
          0 <= l.pending[0].timestamp.value && -60_000 <= now - l.pending[0].timestamp.value <= 60_000)
  }

  /** The clock has started, and the message fits its frame under a nonce not used on this stream before. */
  predicate CanSay(p: Params, l: Link, now: int, nonce: string, w: Wire) {
    now > 0 && nonce != "" && nonce !in l.nonces && Frame(p.Suite().encode(w), p.Max()).Ok?
  }

  /** All bytes on the way can arrive at once, which changes nothing else. */
  lemma BytesCanArrive(p: Params, s: Session)
    requires p.Valid() && SessionInv(p, s)
    ensures
      var t := Act(p, s, UpArrive(|s.up.pipe.inflight|));
      SessionInv(p, t) && t == s.(up := s.up.(pipe := t.up.pipe)) && t.up.pipe.inflight == []
    ensures
      var t := Act(p, s, DownArrive(|s.down.pipe.inflight|));
      SessionInv(p, t) && t == s.(down := s.down.(pipe := t.down.pipe)) && t.down.pipe.inflight == []
  {
    hide Carries, Stage, Undisturbed, Identity, Encoded, Params.Valid, Act, CanAct, Pipe.Arrive;
    ArrivalActs(p, s);
    Arrives(p, s, UpArrive(|s.up.pipe.inflight|));
    Arrives(p, s, DownArrive(|s.down.pipe.inflight|));
    AllArrive(p, s.up);
    AllArrive(p, s.down);
  }

  lemma ArrivalActs(p: Params, s: Session)
    ensures
      var n, m := |s.up.pipe.inflight|, |s.down.pipe.inflight|;
      && CanAct(p, s, UpArrive(n)) && Act(p, s, UpArrive(n)) == s.(up := Arrived(p, s.up, n))
      && CanAct(p, s, DownArrive(m)) && Act(p, s, DownArrive(m)) == s.(down := Arrived(p, s.down, m))
  {
    hide Arrived;
  }

  lemma AllArrive(p: Params, l: Link)
    requires LinkOk(p, l)
    ensures
      var t := Arrived(p, l, |l.pipe.inflight|);
      t == l.(pipe := t.pipe) && t.pipe.inflight == []
  {
    hide Carries;
    ArriveCarries(l.pipe, Encoded(p, l.pending), |l.pipe.inflight|, p.Max());
  }

  lemma Queued(p: Params, l: Link, purgeTime: int, now: int)
    requires LinkOk(p, l) && l.pending != [] && Punctual(l, purgeTime, now)
    ensures l.pipe.queue != [] && Timely(l, purgeTime, now)
  {
    hide Carries;
    AllArrived(l.pipe, Encoded(p, l.pending), p.Max());
  }

  // ---------- The handshake ----------

  /** A client that has not connected can. */
  lemma CanConnect(p: Params, s: Session, env: C.Env)
    requires p.Valid() && SessionInv(p, s) && AtStart(p, s) && s.log.clean
    requires CanSay(p, s.up, env.now, env.nonce, Attach(ClientHello, s.client.correlationId, env.nonce, env.now))
    ensures
      var t := Act(p, s, Connect(env));
      SessionInv(p, t) && HelloInFlight(p, t) && t.log.clean
  {
    assert CanAct(p, s, Connect(env));
    Connects(p, s, env);
    hide Carries, Core, LinkOk, Fresh, NoErrors, HelloInFlight, HelloAnswered, AuthInFlight, AuthAnswered, Running, Stalled, Put;
    var r := C.Connected(p.client, env, s.client);
    ClientDidFacts(p, s, r, true);
    assert Act(p, s, Connect(env)) == ClientDid(p, s, r, true);
    assert r.out.send.Some? && r.client.phase == C.ClientHelloSent;
  }

  /** The server can answer the hello. */
  lemma CanAnswerHello(p: Params, s: Session, env: S.Env, kemIndex: nat)
    requires p.Valid() && SessionInv(p, s) && HelloInFlight(p, s) && s.log.clean
    requires Punctual(s.up, env.purgeTime, env.now) && env.kem == p.Suite().kemPair(kemIndex)
    requires CanSay(p, s.down, env.now, env.nonce, S.HelloMessage(p.server, env, s.client.correlationId))
    ensures
      var t := Act(p, s, ServerRun(env, kemIndex));
      SessionInv(p, t) && HelloAnswered(p, t) && t.log.clean
  {
    hide Carries, Core, Put, LinkOk, Fresh, Consulted, Admits, Timely, Pipe.Pop, S.HelloMessage, ValidSchema, Act, Frame,
         ServerDid, S.OnMessage, AtStart, HelloAnswered, AuthInFlight, AuthAnswered, Running, S.Fail;
    Queued(p, s.up, env.purgeTime, env.now);
    assert CanAct(p, s, ServerRun(env, kemIndex));
    hide CanAct;
    ServerTurn(p, s, env, kemIndex);
    ServerReceives(p, s, env);
    HelloArrives(p, s, env, kemIndex);
    var r := ServerHandles(p, s, env);
    assert r.out == SILENT.(send := Some(S.HelloMessage(p.server, env, s.terms.correlationId)), activated := true);
    HelloNonce(p, env, s.terms.correlationId);
    ServerDidFacts(p, ServerTakes(p, s, env, kemIndex), r, true);
  }

  lemma HelloNonce(p: Params, env: S.Env, correlationId: string)
    ensures S.HelloMessage(p.server, env, correlationId).nonce == Some(env.nonce)
  {
  }

  /** The client can answer the server's hello. */
  lemma CanAuthenticate(p: Params, s: Session, env: C.Env)
    requires p.Valid() && SessionInv(p, s) && HelloAnswered(p, s) && s.log.clean
    requires Punctual(s.down, env.purgeTime, env.now) && env.certValid
    requires CanSay(p, s.up, env.now, env.nonce,
               C.AuthMessage(p.client, env, s.client, p.Suite().encapsulate(p.Suite().kemPair(s.terms.kem).publicKey, env.coin).0))
    ensures
      var t := Act(p, s, ClientRun(env));
      SessionInv(p, t) && AuthInFlight(p, t) && t.log.clean
  {
    hide Carries, Core, Put, LinkOk, Frame, Fresh, Consulted, Admits, Timely, Pipe.Pop, C.AuthMessage, ValidSchema, Act, ClientDid,
         C.OnMessage, C.Dispatch, Key, Channel, AtStart, HelloInFlight, AuthInFlight, AuthAnswered, Running, NoErrors;
    CoreOfClean(s.down.pending);
    Queued(p, s.down, env.purgeTime, env.now);
    assert CanAct(p, s, ClientRun(env));
    hide CanAct;
    assert s.down.pending[0].kind == ServerHello;
    ClientTurn(p, s, env);
    ClientReceives(p, s, env);
    AnswerArrives(p, s, env);
    AuthIsWritten(p, env, s, ClientChecked(s, env), s.down.pending[0], s.terms.(coin := env.coin));
    ClientDidFacts(p, ClientTakes(s, env), ClientHandles(p, s, env), true);
  }

  lemma AuthIsWritten(p: Params, env: C.Env, s: Session, c: C.Client, w: Wire, t: Terms)
    requires p.Valid() && t == s.terms.(coin := env.coin) && c == s.client.(guard := c.guard)
    requires c.phase == C.ClientHelloSent && Identity(p, t, c) && Keyless(c) && IsServerHello(p, t, w) && env.certValid
    requires
      var auth := C.AuthMessage(p.client, env, s.client, p.Suite().encapsulate(p.Suite().kemPair(s.terms.kem).publicKey, env.coin).0);
      Frame(p.Suite().encode(auth), p.Max()).Ok?
    ensures
      var r := C.Dispatch(p.client, env, c, w);
      && r.out == SILENT.(send := r.out.send) && r.out.send.Some? && r.out.send.value.nonce == Some(env.nonce)
      && Frame(p.Suite().encode(r.out.send.value), p.Max()).Ok?
  {
    hide C.Dispatch, C.AuthMessage, Key, Channel, Frame, ValidSchema, Identity, IsServerHello, Keyless;
    HelloHandled(p, t, env, c, w);
    AuthNonce(p, env, s, c, t);
  }

  lemma AuthNonce(p: Params, env: C.Env, s: Session, c: C.Client, t: Terms)
    requires p.Valid() && t == s.terms.(coin := env.coin) && c == s.client.(guard := c.guard)
    ensures
      var keyed := c.(serverSigPublicKey := Some(p.server.sigKeys.publicKey), aesKey := Some(Key(p, t)), layer := Channel(p, t));
      var w := C.AuthMessage(p.client, env, keyed, Capsule(p, t));
      && w == C.AuthMessage(p.client, env, s.client, p.Suite().encapsulate(p.Suite().kemPair(s.terms.kem).publicKey, env.coin).0)
      && w.nonce == Some(env.nonce)
  {
    hide Key, Channel;
  }

  /** The server can answer the client's authentication. */
  lemma CanIssue(p: Params, s: Session, env: S.Env, kemIndex: nat)
    requires p.Valid() && SessionInv(p, s) && AuthInFlight(p, s) && s.log.clean
    requires Punctual(s.up, env.purgeTime, env.now) && env.kem == p.Suite().kemPair(kemIndex) && env.allowed(s.client.sigKeys.publicKey)
    requires CanSay(p, s.down, env.now, env.nonce, S.ServerAuthMessage(p.server, env, s.client.correlationId, TicketOf(p, s.terms, env)))
    ensures
      var t := Act(p, s, ServerRun(env, kemIndex));
      SessionInv(p, t) && AuthAnswered(p, t) && t.log.clean
  {
    hide Carries, Core, Put, LinkOk, Fresh, Consulted, Admits, Timely, Pipe.Pop, S.ServerAuthMessage, ValidSchema, Act, Frame, TicketOf,
         ServerDid, S.OnMessage, S.Dispatch, Key, Channel, AtStart, HelloInFlight, HelloAnswered, AuthAnswered, Running, S.Fail;
    Queued(p, s.up, env.purgeTime, env.now);
    assert CanAct(p, s, ServerRun(env, kemIndex));
    hide CanAct;
    ServerTurn(p, s, env, kemIndex);
    ServerReceives(p, s, env);
    AuthArrives(p, s, env, kemIndex);
    TicketIsWritten(p, env, ServerChecked(s, env), s.up.pending[0], s.terms);
    ServerDidFacts(p, ServerTakes(p, s, env, kemIndex), ServerHandles(p, s, env), true);
  }

  lemma TicketIsWritten(p: Params, env: S.Env, c: S.Conn, w: Wire, t: Terms)
    requires p.Valid() && ServerWaiting(p, t, c) && IsAuth(p, t, w) && t.kemPublicKey != [] && env.allowed(ClientKey(p, t))
    requires Frame(p.Suite().encode(S.ServerAuthMessage(p.server, env, t.correlationId, TicketOf(p, t, env))), p.Max()).Ok?
    ensures
      var r := S.Dispatch(p.server, env, c, w);
      && r.out == SILENT.(send := r.out.send) && r.out.send.Some? && r.out.send.value.nonce == Some(env.nonce)
      && Frame(p.Suite().encode(r.out.send.value), p.Max()).Ok?
  {
    hide S.Dispatch, Key, TicketOf, Frame, ValidSchema, RL.Layer.SetChannel;
    AuthHandled(p, t, env, c, w);
  }

  /** The client can finish. */
  lemma CanFinish(p: Params, s: Session, env: C.Env)
    requires p.Valid() && SessionInv(p, s) && AuthAnswered(p, s) && s.log.clean
    requires Punctual(s.down, env.purgeTime, env.now) && env.now > 0 && env.nonce != ""
    ensures
      var t := Act(p, s, ClientRun(env));
      SessionInv(p, t) && Running(p, t) && t.log.clean
  {
    hide Carries, Core, Put, LinkOk, Frame, Fresh, Consulted, Admits, Timely, Pipe.Pop, ValidSchema, Act, ClientDid,
         C.OnMessage, C.Dispatch, Key, Channel, GoodTicket, AtStart, HelloInFlight, HelloAnswered, AuthInFlight, Running, NoErrors, Stalled;
    CoreOfClean(s.down.pending);
    Queued(p, s.down, env.purgeTime, env.now);
    assert CanAct(p, s, ClientRun(env));
    hide CanAct;
    assert s.down.pending[0].kind == ServerAuthResponse;
    ClientTurn(p, s, env);
    ClientReceives(p, s, env);
    TicketArrives(p, s, env);
    TicketHandled(p, s.terms, env, ClientChecked(s, env), s.down.pending[0], true);
    var r := ClientHandles(p, s, env);
    assert r.out == SILENT;
    ClientDidFacts(p, ClientTakes(s, env), r, true);
    StalledIsDisturbed(p, Act(p, s, ClientRun(env)));
  }

  lemma StalledIsDisturbed(p: Params, s: Session)
    ensures Stalled(p, s) ==> !s.log.clean
  {
    hide Core;
  }

  // ---------- The records ----------

  /** The client can send. */
  lemma CanSend(p: Params, s: Session, env: C.Env, serviceId: string, body: bytes)
    requires p.Valid() && SessionInv(p, s) && Running(p, s) && s.log.clean
    requires
      var payload := RL.RecordPayload(RL.Application, serviceId, body, env.now);
      var sealed := s.client.layer.Seal(p.Suite().sealing, Key(p, s.terms), payload, s.client.sendSequence + 1, env.iv, env.noise);
      && sealed.Ok? && s.client.layer.HeaderFits(p.Suite().sealing, payload, s.client.sendSequence + 1)
      && CanSay(p, s.up, env.now, env.nonce, DataMessage(s.client.correlationId, env.nonce, env.now, sealed.value))
    ensures
      var t := Act(p, s, ClientSend(env, serviceId, body));
      SessionInv(p, t) && Running(p, t) && t.log.clean && t.log.sent == s.log.sent + [Delivery(serviceId, body)]
  {
    hide Carries, Core, Put, LinkOk, Fresh, Act, ClientDid, C.Sent, SendFits, RL.Layer.Seal, RL.Layer.HeaderFits, DataMessage, Frame,
         Key, Channel, GoodTicket, NoErrors, InOrder, AtStart, HelloInFlight, HelloAnswered, AuthInFlight, AuthAnswered, Stalled;
    assert CanAct(p, s, ClientSend(env, serviceId, body));
    hide CanAct;
    BodySent(p, s, env, serviceId, body);
    Sends(p, s, env, serviceId, body);
    SameSuite(p);
    SentBy(p.client, env, s.client, serviceId, body);
    HeaderIsFine(p, s.client, env, serviceId, body);
    var r := C.Sent(p.client, env, s.client, serviceId, body);
    DataNonce(s.client.correlationId, env.nonce, env.now, r.out.send.value);
    ClientDidFacts(p, s.(log := s.log.(sent := s.log.sent + [Delivery(serviceId, body)])), r, true);
  }

  lemma HeaderIsFine(p: Params, c: C.Client, env: C.Env, serviceId: string, body: bytes)
    ensures SendFits(p, c, env, serviceId, body) <==>
      c.layer.HeaderFits(p.Suite().sealing, RL.RecordPayload(RL.Application, serviceId, body, env.now), c.sendSequence + 1)
  {
    hide RL.Layer.HeaderFits;
  }

  lemma DataNonce(correlationId: string, nonce: string, timestamp: int, w: Wire)
    ensures forall record :: w == DataMessage(correlationId, nonce, timestamp, record) ==> w.nonce == Some(nonce)
  {
  }

  /** The server can take the next record. */
  lemma CanRoute(p: Params, s: Session, env: S.Env, kemIndex: nat)
    requires p.Valid() && SessionInv(p, s) && Running(p, s) && s.log.clean && s.up.pending != [] && s.conn.routing.None?
    requires Punctual(s.up, env.purgeTime, env.now) && env.now > 0 && env.nonce != "" && env.kem == p.Suite().kemPair(kemIndex)
    ensures
      var t := Act(p, s, ServerRun(env, kemIndex));
      SessionInv(p, t) && Running(p, t) && t.log.clean && |t.log.routed| == |s.log.routed| + 1
  {
    hide Carries, Core, Put, LinkOk, Fresh, Consulted, Admits, Timely, Pipe.Pop, ValidSchema, Act, Frame, ServerDid, S.OnMessage, S.Dispatch,
         Key, Channel, GoodTicket, NoErrors, Records, IsRecord, AtStart, HelloInFlight, HelloAnswered, AuthInFlight, AuthAnswered, Stalled;
    Queued(p, s.up, env.purgeTime, env.now);
    assert CanAct(p, s, ServerRun(env, kemIndex));
    hide CanAct;
    RecordArrives(p, s, env, kemIndex);
    ServerTurn(p, s, env, kemIndex);
    var n := |s.log.routed|;
    RecordsRest(p, s.terms, s.up.pending, s.log.sent, n);
    RecordIsValid(p, s.terms, s.up.pending[0], n + 1, s.log.sent[n]);
    ServerReceives(p, s, env);
    RecordHandled(p, s.terms, env, ServerChecked(s, env), s.up.pending[0], n + 1, s.log.sent[n]);
    ServerDidFacts(p, ServerTakes(p, s, env, kemIndex), ServerHandles(p, s, env), true);
  }

  /** The router's answer can be sent back. */
  lemma CanReply(p: Params, s: Session, env: S.Env, answer: bytes)
    requires p.Valid() && SessionInv(p, s) && Running(p, s) && s.log.clean && s.conn.routing.Some?
    requires
      var payload := RL.RecordPayload(RL.Application, s.conn.routing.value.serviceId, answer, s.conn.routing.value.timestamp);
      var sealed := s.conn.layer.Seal(p.Suite().sealing, Key(p, s.terms), payload, s.conn.sendSequence + 1, env.iv, env.noise);
      && sealed.Ok? && s.conn.layer.HeaderFits(p.Suite().sealing, payload, s.conn.sendSequence + 1)
      && CanSay(p, s.down, env.now, env.nonce,
                DataMessage(s.client.correlationId, env.nonce, s.conn.routing.value.timestamp, sealed.value))
    ensures
      var t := Act(p, s, Settle(env, Some(answer)));
      && SessionInv(p, t) && Running(p, t) && t.log.clean
      && t.log.replied == s.log.replied + [Delivery(s.conn.routing.value.serviceId, answer)]
  {
    hide Carries, Core, Put, LinkOk, Fresh, Act, ServerDid, S.OnRouted, ReplyFits, RL.Layer.Seal, RL.Layer.HeaderFits, DataMessage, Frame,
         Key, Channel, GoodTicket, NoErrors, InOrder, AtStart, HelloInFlight, HelloAnswered, AuthInFlight, AuthAnswered, Stalled;
    assert CanAct(p, s, Settle(env, Some(answer)));
    hide CanAct;
    RouteSettles(p, s, env, Some(answer));
    Settles(p, s, env, Some(answer));
    ReplyIsWritten(p, s.terms, env, s.conn, answer);
    var u := s.(log := s.log.(replied := s.log.replied + Listed(Reply(s.conn, Some(answer)))));
    ServerDidFacts(p, u, S.OnRouted(p.server, env, s.conn, Some(answer)), true);
  }

  lemma ReplyIsWritten(p: Params, t: Terms, env: S.Env, c: S.Conn, answer: bytes)
    requires p.Valid() && ServerKeyed(p, t, c, true) && c.routing.Some?
    requires
      var payload := RL.RecordPayload(RL.Application, c.routing.value.serviceId, answer, c.routing.value.timestamp);
      var sealed := c.layer.Seal(p.Suite().sealing, Key(p, t), payload, c.sendSequence + 1, env.iv, env.noise);
      && sealed.Ok? && c.layer.HeaderFits(p.Suite().sealing, payload, c.sendSequence + 1)
      && Frame(p.Suite().encode(DataMessage(t.correlationId, env.nonce, c.routing.value.timestamp, sealed.value)), p.Max()).Ok?
    ensures ReplyFits(p, c, Some(answer))
    ensures
      var r := S.OnRouted(p.server, env, c, Some(answer));
      && r.out == SILENT.(send := r.out.send) && r.out.send.Some? && r.out.send.value.nonce == Some(env.nonce)
      && Frame(p.Suite().encode(r.out.send.value), p.Max()).Ok?
  {
    hide RL.Layer.Seal, RL.Layer.HeaderFits, Key, Channel, Frame;
  }

  /** The client can take the next reply. */
  lemma CanHandle(p: Params, s: Session, env: C.Env)
    requires p.Valid() && SessionInv(p, s) && Running(p, s) && s.log.clean && s.down.pending != []
    requires Punctual(s.down, env.purgeTime, env.now) && env.now > 0 && env.nonce != ""
    ensures
      var t := Act(p, s, ClientRun(env));
      SessionInv(p, t) && Running(p, t) && t.log.clean && |t.log.handled| == |s.log.handled| + 1
  {
    hide Carries, Core, Put, LinkOk, Fresh, Consulted, Admits, Timely, Pipe.Pop, ValidSchema, Act, Frame, ClientDid, C.OnMessage, C.Dispatch,
         Key, Channel, GoodTicket, NoErrors, Records, IsRecord, AtStart, HelloInFlight, HelloAnswered, AuthInFlight, AuthAnswered, Stalled;
    Queued(p, s.down, env.purgeTime, env.now);
    assert CanAct(p, s, ClientRun(env));
    hide CanAct;
    ReplyArrives(p, s, env);
    ClientTurn(p, s, env);
    var n := |s.log.handled|;
    RecordsRest(p, s.terms, s.down.pending, s.log.replied, n);
    RecordIsValid(p, s.terms, s.down.pending[0], n + 1, s.log.replied[n]);
    ClientReceives(p, s, env);
    ReplyHandled(p, s.terms, env, ClientChecked(s, env), s.down.pending[0], n + 1, s.log.replied[n]);
    ClientDidFacts(p, ClientTakes(s, env), ClientHandles(p, s, env), true);
  }
}
