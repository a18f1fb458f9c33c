/** The record exchange of an honest session, and the steps that only disturb it. */
module ChannelRecords {
  import opened Wrappers
  import opened Bytes
  import opened Framing
  import opened Pipes
  import opened Protocol
  import opened HonestChannel
  import opened ChannelInvariant
  import opened ChannelSteps
  import Chaos
  import RL = RecordLayer
  import S = ServerConnection
  import C = ClientConnection

  // ---------- Streams of records ----------

  lemma RecordsGrow(p: Params, t: Terms, wires: seq<Wire>, list: seq<Delivery>, from: nat, w: Wire, d: Delivery)
    requires Records(p, t, wires, list, from) && IsRecord(p, t, w, |list| + 1, d)
    ensures Records(p, t, wires + [w], list + [d], from)
  {
    hide IsRecord;
  }

  lemma RecordsRest(p: Params, t: Terms, wires: seq<Wire>, list: seq<Delivery>, from: nat)
    requires Records(p, t, wires, list, from) && wires != []
    ensures from < |list| && IsRecord(p, t, wires[0], from + 1, list[from]) && Records(p, t, wires[1..], list, from + 1)
  {
    hide IsRecord;
    forall i | 0 <= i < |wires| - 1 ensures IsRecord(p, t, wires[1..][i], from + 1 + i + 1, list[from + 1 + i]) {
      assert IsRecord(p, t, wires[i + 1], from + (i + 1) + 1, list[from + (i + 1)]);
    }
  }

  lemma PrefixGrows<T>(a: seq<T>, b: seq<T>)
    requires a <= b && |a| < |b|
    ensures a + [b[|a|]] <= b
  {
  }

  /** Nothing but the n-th record, opening to this body for this service. */
  predicate SendsRecord(p: Params, t: Terms, o: Output, n: nat, d: Delivery) {
    && o == SILENT.(send := o.send) && o.send.Some?
    && Polite(t, o.send.value) && IsRecord(p, t, o.send.value, n, d)
  }

  /** What is sealed for the channel, at either end, is the record it claims to be. */
  lemma SealedIsRecord(p: Params, t: Terms, payload: RL.RecordPayload, n: nat, iv: bytes, noise: Chaos.Noise, nonce: string)
    requires p.Valid() && t.correlationId != "" && nonce != ""
    requires payload.recordType == RL.Application && payload.imperialTimestamp >= 0
    requires Channel(p, t).Seal(p.Suite().sealing, Key(p, t), payload, n, iv, noise).Ok?
    requires Channel(p, t).HeaderFits(p.Suite().sealing, payload, n)
    ensures
      var record := Channel(p, t).Seal(p.Suite().sealing, Key(p, t), payload, n, iv, noise).value;
      var w := DataMessage(t.correlationId, nonce, payload.imperialTimestamp, record);
      SendsRecord(p, t, SILENT.(send := Some(w)), n, Delivery(payload.serviceId, payload.body))
  {
    assert p.Suite().sealing.Sound();
    hide Params.Valid, RL.Layer.Open, RL.Layer.Seal, RL.Layer.HeaderFits, Key, Channel, RL.Sealing.Sound;
    RL.OpenUndoesSeal(Channel(p, t), p.Suite().sealing, Key(p, t), payload, n, iv, noise);
    RL.SealKeepsSequence(Channel(p, t), p.Suite().sealing, Key(p, t), payload, n, iv, noise);
    var record := Channel(p, t).Seal(p.Suite().sealing, Key(p, t), payload, n, iv, noise).value;
    var w := DataMessage(t.correlationId, nonce, payload.imperialTimestamp, record);
    assert ValidSchema(w) && RecordIn(w) == record;
  }

  // ---------- Records at the server ----------

  /** Once the handshake has ended, a message advances at most the guard, the receive counter and the route. */
  lemma ServerStays(p: Params, env: S.Env, c: S.Conn, raw: bytes)
    requires p.Valid() && S.Ended(c.phase) && c.routing.None?
    ensures
      var r := S.OnMessage(p.server, env, c, raw);
      && r.conn == c.(guard := r.conn.guard, recvSequence := r.conn.recvSequence, routing := r.conn.routing)
      && Writable(p, r.out) && !r.out.activated
  {
    hide ValidSchema, Admits, Consulted, Fits, RL.Layer.Open, RecordIn, Params.Valid;
  }

  /** The next record of the channel is routed. */
  lemma RecordHandled(p: Params, t: Terms, env: S.Env, c: S.Conn, w: Wire, n: nat, d: Delivery)
    requires p.Valid() && ServerKeyed(p, t, c, true) && c.routing.None? && c.recvSequence + 1 == n && IsRecord(p, t, w, n, d)
    ensures
      var r := S.Dispatch(p.server, env, c, w);
      && r.conn == c.(recvSequence := n, routing := r.conn.routing)
      && r.conn.routing.Some? && r.conn.routing.value.timestamp >= 0 && r.conn.routing.value.serviceId == d.serviceId
      && r.out == SILENT.(delivered := Some(d), accepted := Some(n))
  {
    hide RL.Layer.Open, Key, Channel, S.Fail;
  }

  /** A message arrives at the server of an open channel; on a clean one it is the next record, and the router runs on its body. */
  lemma RecordArrives(p: Params, s: Session, env: S.Env, kemIndex: nat)
    requires p.Valid() && SessionInv(p, s) && Running(p, s) && CanAct(p, s, ServerRun(env, kemIndex))
    ensures
      var t := Act(p, s, ServerRun(env, kemIndex));
      && SessionInv(p, t) && Running(p, t)
      && (t.log.clean ==> |t.log.routed| == |s.log.routed| + 1 && t.log.routed <= s.log.sent && t.log.sent == s.log.sent)
  {
    hide Carries, Core, Put, LinkOk, Fits, Fresh, Consulted, Admits, Timely, Pipe.Pop, Act, ServerDid, CanAct, S.OnMessage, S.Dispatch,
         Key, Channel, GoodTicket, NoErrors, Records, IsRecord, AtStart, HelloInFlight, HelloAnswered, AuthInFlight, AuthAnswered, Stalled;
    ServerTurn(p, s, env, kemIndex);
    TakenKeeps(p, s.up);
    ServerStays(p, env, s.conn, s.up.pipe.queue[0]);
    var r := ServerHandles(p, s, env);
    var u := ServerTakes(p, s, env, kemIndex);
    var fine := Timely(s.up, env.purgeTime, env.now);
    ServerDidFacts(p, u, r, fine);
    var t := ServerDid(p, u, r, fine);
    if t.log.clean {
      var n := |s.log.routed|;
      RecordsRest(p, s.terms, s.up.pending, s.log.sent, n);
      RecordIsValid(p, s.terms, s.up.pending[0], n + 1, s.log.sent[n]);
      ServerReceives(p, s, env);
      RecordHandled(p, s.terms, env, ServerChecked(s, env), s.up.pending[0], n + 1, s.log.sent[n]);
      PrefixGrows(s.log.routed, s.log.sent);
      ServerQuiet(p, u, r, fine);
      assert t.down.pending == s.down.pending;
    }
  }

  lemma RecordIsValid(p: Params, t: Terms, w: Wire, n: nat, d: Delivery)
    requires IsRecord(p, t, w, n, d)
    ensures Addressed(w, EncryptedData, t.correlationId)
  {
  }

  /** What the router's answer may change. */
  lemma RoutedStays(p: Params, env: S.Env, c: S.Conn, answer: Option<bytes>)
    requires p.Valid() && S.Ended(c.phase) && c.routing.Some?
    ensures
      var r := S.OnRouted(p.server, env, c, answer);
      && r.conn == c.(sendSequence := r.conn.sendSequence, routing := None)
      && Writable(p, r.out) && r.out.delivered.None?
  {
    hide Fits, RL.Layer.Seal, Params.Valid, DataMessage;
  }

  /** The reply that the server seals, or a failure from outside. */
  lemma RoutedHandled(p: Params, t: Terms, env: S.Env, c: S.Conn, answer: Option<bytes>)
    requires p.Valid() && ServerKeyed(p, t, c, true) && c.routing.Some? && c.routing.value.timestamp >= 0
    requires t.correlationId != "" && Sane(env.now, env.nonce) && ReplyFits(p, c, answer)
    ensures
      var r := S.OnRouted(p.server, env, c, answer);
      || (r.out.failure.Some? && FromOutside(r.out.failure.value))
      || (answer.Some? && r.conn.sendSequence == c.sendSequence + 1 && SendsRecord(p, t, r.out, c.sendSequence + 1, Reply(c, answer).value))
  {
    hide Params.Valid, Fits, RL.Layer.Seal, RL.Layer.HeaderFits, DataMessage, Key, Channel, SendsRecord;
    if answer.Some? {
      var payload := RL.RecordPayload(RL.Application, c.routing.value.serviceId, answer.value, c.routing.value.timestamp);
      if c.layer.Seal(p.Suite().sealing, Key(p, t), payload, c.sendSequence + 1, env.iv, env.noise).Ok? {
        SealedIsRecord(p, t, payload, c.sendSequence + 1, env.iv, env.noise, env.nonce);
      }
    }
  }

  lemma Settles(p: Params, s: Session, env: S.Env, answer: Option<bytes>)
    requires CanAct(p, s, Settle(env, answer))
    ensures s.conn.routing.Some? && Sane(env.now, env.nonce)
    ensures Act(p, s, Settle(env, answer)) ==
      ServerDid(p, s.(log := s.log.(replied := s.log.replied + Listed(Reply(s.conn, answer)))), S.OnRouted(p.server, env, s.conn, answer),
                ReplyFits(p, s.conn, answer))
  {
    hide S.OnRouted, ServerDid, ReplyFits;
  }

  /** The router has answered on an open channel; on a clean one the answer is the next reply. */
  lemma RouteSettles(p: Params, s: Session, env: S.Env, answer: Option<bytes>)
    requires p.Valid() && SessionInv(p, s) && Running(p, s) && CanAct(p, s, Settle(env, answer))
    ensures
      var t := Act(p, s, Settle(env, answer));
      && SessionInv(p, t) && Running(p, t)
      && (t.log.clean ==> answer.Some? && t.log.replied == s.log.replied + Listed(Reply(s.conn, answer)) && |t.down.pending| == |s.down.pending| + 1)
  {
    hide Carries, Core, Put, LinkOk, Fits, Fresh, Act, ServerDid, CanAct, S.OnRouted, ReplyFits,
         Key, Channel, GoodTicket, NoErrors, Records, IsRecord, AtStart, HelloInFlight, HelloAnswered, AuthInFlight, AuthAnswered, Stalled;
    Settles(p, s, env, answer);
    RoutedStays(p, env, s.conn, answer);
    var r := S.OnRouted(p.server, env, s.conn, answer);
    var u := s.(log := s.log.(replied := s.log.replied + Listed(Reply(s.conn, answer))));
    var fine := ReplyFits(p, s.conn, answer);
    ServerDidFacts(p, u, r, fine);
    var t := ServerDid(p, u, r, fine);
    if t.log.clean {
      RoutedHandled(p, s.terms, env, s.conn, answer);
      RecordsGrow(p, s.terms, s.down.pending, s.log.replied, |s.log.handled|, r.out.send.value, Reply(s.conn, answer).value);
      ServerQuiet(p, u, r, fine);
    }
  }

  // ---------- Records at the client ----------

  lemma SameSuite(p: Params)
    requires p.Valid()
    ensures p.client.suite == p.Suite() && p.client.maxMessageBytes == p.Max()
  {
  }

  /** Once the handshake has ended, a message advances at most the guard and the receive counter, or closes the channel. */
  lemma ClientStays(p: Params, env: C.Env, c: C.Client, raw: bytes)
    requires p.Valid() && C.Ended(c.phase)
    ensures
      var r := C.OnMessage(p.client, env, c, raw);
      && r.client == c.(guard := r.client.guard, recvSequence := r.client.recvSequence, aesKey := r.client.aesKey)
      && (r.client.aesKey == c.aesKey || (r.client.aesKey.None? && r.out.closing)) && Writable(p, r.out)
  {
    hide ValidSchema, Admits, Consulted, Fits, RL.Layer.Open, RecordIn, Params.Valid;
    SameSuite(p);
  }

  /** The next reply of the channel is handed to the application. */
  lemma ReplyHandled(p: Params, t: Terms, env: C.Env, c: C.Client, w: Wire, n: nat, d: Delivery)
    requires p.Valid() && c.phase == C.Established && ClientKeyed(p, t, c, true) && c.recvSequence + 1 == n && IsRecord(p, t, w, n, d)
    ensures
      var r := C.Dispatch(p.client, env, c, w);
      && r.client == c.(recvSequence := n)
      && r.out == SILENT.(delivered := Some(d), accepted := Some(n))
  {
    hide RL.Layer.Open, Key, Channel;
  }

  /** A message arrives at the client of an open channel; on a clean one it is the next reply, and the handler gets its body. */
  lemma ReplyArrives(p: Params, s: Session, env: C.Env)
    requires p.Valid() && SessionInv(p, s) && Running(p, s) && CanAct(p, s, ClientRun(env))
    ensures
      var t := Act(p, s, ClientRun(env));
      && SessionInv(p, t) && Running(p, t)
      && (t.log.clean ==> |t.log.handled| == |s.log.handled| + 1 && t.log.handled <= s.log.replied && t.log.replied == s.log.replied)
  {
    hide Carries, Core, Put, LinkOk, Fits, Fresh, Consulted, Admits, Timely, Pipe.Pop, Act, ClientDid, CanAct, C.OnMessage, C.Dispatch,
         Key, Channel, GoodTicket, NoErrors, Records, IsRecord, AtStart, HelloInFlight, HelloAnswered, AuthInFlight, AuthAnswered, Stalled;
    ClientTurn(p, s, env);
    TakenKeeps(p, s.down);
    ClientStays(p, env, s.client, s.down.pipe.queue[0]);
    var r := ClientHandles(p, s, env);
    var u := ClientTakes(s, env);
    var fine := Timely(s.down, env.purgeTime, env.now);
    ClientDidFacts(p, u, r, fine);
    var t := ClientDid(p, u, r, fine);
    if t.log.clean {
      var n := |s.log.handled|;
      RecordsRest(p, s.terms, s.down.pending, s.log.replied, n);
      RecordIsValid(p, s.terms, s.down.pending[0], n + 1, s.log.replied[n]);
      ClientReceives(p, s, env);
      ReplyHandled(p, s.terms, env, ClientChecked(s, env), s.down.pending[0], n + 1, s.log.replied[n]);
      PrefixGrows(s.log.handled, s.log.replied);
      ClientQuiet(p, u, r, fine);
      assert t.up.pending == s.up.pending;
    } else if r.client.aesKey != s.client.aesKey {
      assert r.client.aesKey.None?;
    }
  }

  lemma SentStays(p: Params, env: C.Env, c: C.Client, serviceId: string, body: bytes)
    requires p.Valid()
    ensures
      var r := C.Sent(p.client, env, c, serviceId, body);
      r.client == c.(sendSequence := r.client.sendSequence) && Writable(p, r.out) && r.out.delivered.None?
  {
    hide Fits, RL.Layer.Seal, DataMessage;
  }

  lemma SizesAreOutside()
    ensures FromOutside(SealFailed) && FromOutside(FrameTooLong) && FromOutside(RouteFailed)
  {
  }

  /** How a client sends on an open channel. */
  lemma SentBy(cfg: C.Config, env: C.Env, c: C.Client, serviceId: string, body: bytes)
    requires C.Ended(c.phase) && c.aesKey.Some?
    ensures
      var payload := RL.RecordPayload(RL.Application, serviceId, body, env.now);
      var counted := c.(sendSequence := c.sendSequence + 1);
      var sealed := c.layer.Seal(cfg.suite.sealing, c.aesKey.value, payload, c.sendSequence + 1, env.iv, env.noise);
      C.Sent(cfg, env, c, serviceId, body) ==
        if sealed.Err? then C.Fail(counted, SealFailed)
        else
          var w := DataMessage(c.correlationId, env.nonce, env.now, sealed.value);
          if Fits(cfg.suite, cfg.maxMessageBytes, w) then C.Outcome(counted, SILENT.(send := Some(w))) else C.Fail(counted, FrameTooLong)
  {
    hide Fits, RL.Layer.Seal, DataMessage;
  }

  /** The record that the client seals, or a failure from outside. */
  lemma SentHandled(p: Params, t: Terms, env: C.Env, c: C.Client, serviceId: string, body: bytes)
    requires p.Valid() && Identity(p, t, c) && ClientKeyed(p, t, c, true) && c.phase == C.Established
    requires Sane(env.now, env.nonce) && SendFits(p, c, env, serviceId, body)
    ensures
      var r := C.Sent(p.client, env, c, serviceId, body);
      || (r.out.failure.Some? && FromOutside(r.out.failure.value))
      || (r.client.sendSequence == c.sendSequence + 1 && SendsRecord(p, t, r.out, c.sendSequence + 1, Delivery(serviceId, body)))
  {
    hide Params.Valid, Fits, RL.Layer.Seal, RL.Layer.HeaderFits, DataMessage, Key, Channel, SendsRecord, C.Sent, FromOutside;
    SameSuite(p);
    SentBy(p.client, env, c, serviceId, body);
    SizesAreOutside();
    var payload := RL.RecordPayload(RL.Application, serviceId, body, env.now);
    if c.layer.Seal(p.Suite().sealing, Key(p, t), payload, c.sendSequence + 1, env.iv, env.noise).Ok? {
      SealedIsRecord(p, t, payload, c.sendSequence + 1, env.iv, env.noise, env.nonce);
    }
  }

  lemma Sends(p: Params, s: Session, env: C.Env, serviceId: string, body: bytes)
    requires CanAct(p, s, ClientSend(env, serviceId, body))
    ensures Sane(env.now, env.nonce) && C.Ended(s.client.phase) && s.client.aesKey.Some?
    ensures Act(p, s, ClientSend(env, serviceId, body)) ==
      ClientDid(p, s.(log := s.log.(sent := s.log.sent + [Delivery(serviceId, body)])), C.Sent(p.client, env, s.client, serviceId, body),
                SendFits(p, s.client, env, serviceId, body))
  {
    hide C.Sent, ClientDid, SendFits;
  }

  /** The application sends on an open channel; on a clean one the body becomes the next record. */
  lemma BodySent(p: Params, s: Session, env: C.Env, serviceId: string, body: bytes)
    requires p.Valid() && SessionInv(p, s) && Running(p, s) && CanAct(p, s, ClientSend(env, serviceId, body))
    ensures
      var t := Act(p, s, ClientSend(env, serviceId, body));
      && SessionInv(p, t) && Running(p, t)
      && (t.log.clean ==> t.log.sent == s.log.sent + [Delivery(serviceId, body)] && |t.up.pending| == |s.up.pending| + 1)
  {
    hide Carries, Core, Put, LinkOk, Fits, Fresh, Act, ClientDid, CanAct, C.Sent, SendFits,
         Key, Channel, GoodTicket, NoErrors, Records, IsRecord, AtStart, HelloInFlight, HelloAnswered, AuthInFlight, AuthAnswered, Stalled;
    Sends(p, s, env, serviceId, body);
    SentStays(p, env, s.client, serviceId, body);
    var r := C.Sent(p.client, env, s.client, serviceId, body);
    var u := s.(log := s.log.(sent := s.log.sent + [Delivery(serviceId, body)]));
    var fine := SendFits(p, s.client, env, serviceId, body);
    ClientDidFacts(p, u, r, fine);
    var t := ClientDid(p, u, r, fine);
    if t.log.clean {
      SentHandled(p, s.terms, env, s.client, serviceId, body);
      RecordsGrow(p, s.terms, s.up.pending, s.log.sent, |s.log.routed|, r.out.send.value, Delivery(serviceId, body));
      ClientQuiet(p, u, r, fine);
    }
  }

  // ---------- Steps that only disturb ----------

  /** Failures and closing ends leave the stage as it is. */
  lemma DisturbedStage(p: Params, s: Session, t: Session)
    requires Stage(p, s) && !t.log.clean && t.log == s.log.(failures := t.log.failures, clean := false)
    requires t.client == s.client.(guard := t.client.guard, aesKey := t.client.aesKey) && t.client.aesKey in {s.client.aesKey, None}
    requires t.conn == s.conn.(aesKey := t.conn.aesKey) && t.conn.aesKey in {s.conn.aesKey, None}
    requires t.up.pending == s.up.pending || s.client.handshakeComplete
    requires Core(t.down.pending) == Core(s.down.pending)
    requires t.terms == s.terms.(coin := t.terms.coin) && (t.terms.coin == s.terms.coin || s.client.phase == C.ClientHelloSent)
    ensures Stage(p, t)
  {
    hide Core, Key, Channel, GoodTicket, IsAuth, IsServerAuth, InOrder, ValidSchema;
  }

  /** Bytes arriving change no message. */
  lemma Arrives(p: Params, s: Session, a: Action)
    requires p.Valid() && SessionInv(p, s) && (a.UpArrive? || a.DownArrive?) && CanAct(p, s, a)
    ensures SessionInv(p, Act(p, s, a))
  {
    hide Params.Valid, SessionInv, Arrived;
    if a.UpArrive? {
      UpArrives(p, s, a.n);
    } else {
      DownArrives(p, s, a.n);
    }
  }

  lemma UpArrives(p: Params, s: Session, n: nat)
    requires p.Valid() && SessionInv(p, s) && n <= |s.up.pipe.inflight|
    ensures SessionInv(p, s.(up := Arrived(p, s.up, n)))
  {
    hide Carries, Core, Params.Valid, Pipe.Arrive, NoErrors, LinkOk, Key, Channel, GoodTicket, IsAuth, IsServerAuth, IsServerHello, Records;
    ArrivedKeeps(p, s.up, n);
  }

  lemma DownArrives(p: Params, s: Session, n: nat)
    requires p.Valid() && SessionInv(p, s) && n <= |s.down.pipe.inflight|
    ensures SessionInv(p, s.(down := Arrived(p, s.down, n)))
  {
    hide Carries, Core, Params.Valid, Pipe.Arrive, NoErrors, LinkOk, Key, Channel, GoodTicket, IsAuth, IsServerAuth, IsServerHello, Records;
    ArrivedKeeps(p, s.down, n);
  }

  lemma ErrorIgnored(p: Params, env: C.Env, c: C.Client, w: Wire)
    requires p.Valid() && w.kind == HandshakeError
    ensures
      var r := C.OnMessage(p.client, env, c, p.Suite().encode(w));
      r.client == c.(guard := r.client.guard) && r.out == SILENT.(failure := r.out.failure) && r.out.failure.Some?
  {
    hide ValidSchema, Admits, Consulted;
    assert p.Suite().decode(p.Suite().encode(w)) == Some(w);
  }

  /** A handshake error at the head of the stream is reported and dropped. */
  lemma ErrorArrives(p: Params, s: Session, env: C.Env)
    requires p.Valid() && SessionInv(p, s) && CanAct(p, s, ClientRun(env))
    requires s.down.pending != [] ==> s.down.pending[0].kind == HandshakeError
    ensures SessionInv(p, Act(p, s, ClientRun(env)))
  {
    hide Carries, Core, Put, LinkOk, Fits, Fresh, Timely, Pipe.Pop, Act, ClientDid, CanAct, C.OnMessage, Stage;
    ClientTurn(p, s, env);
    TakenKeeps(p, s.down);
    CoreTaken(s.down);
    assert [] + Core(Taken(s.down).pending) == Core(Taken(s.down).pending);
    ErrorIgnored(p, env, s.client, s.down.pending[0]);
    var r := ClientHandles(p, s, env);
    var u := ClientTakes(s, env);
    ClientDidFacts(p, u, r, Timely(s.down, env.purgeTime, env.now));
    DisturbedStage(p, s, Act(p, s, ClientRun(env)));
  }

  lemma TimesOutIs(p: Params, s: Session, env: S.Env)
    requires CanAct(p, s, ServerTimeout(env))
    ensures Act(p, s, ServerTimeout(env)) == ServerDid(p, s, S.Fail(p.server, env, s.conn, TimedOut), true)
  {
    hide S.Fail, ServerDid;
  }

  /** A handshake timeout reports an error and moves nothing. */
  lemma TimesOut(p: Params, s: Session, env: S.Env)
    requires p.Valid() && SessionInv(p, s) && CanAct(p, s, ServerTimeout(env))
    ensures SessionInv(p, Act(p, s, ServerTimeout(env)))
  {
    hide Carries, Core, LinkOk, Fits, Fresh, Act, ServerDid, CanAct, S.Fail, Stage;
    TimesOutIs(p, s, env);
    ServerFails(p, env, s.conn, TimedOut);
    var r := S.Fail(p.server, env, s.conn, TimedOut);
    ServerDidFacts(p, s, r, true);
    CoreListed(s.down.pending, r.out.send);
    DisturbedStage(p, s, Act(p, s, ServerTimeout(env)));
  }

  /** Closing the server's end wipes its key. */
  lemma ServerCloses(p: Params, s: Session)
    requires p.Valid() && SessionInv(p, s)
    ensures SessionInv(p, Act(p, s, ServerClose))
  {
    hide Carries, Core, LinkOk, Fresh, Stage;
    DisturbedStage(p, s, Act(p, s, ServerClose));
  }

  lemma ClientClosesIs(p: Params, s: Session, env: C.Env)
    requires p.Valid() && CanAct(p, s, ClientClose(env))
    ensures
      var r := C.Disconnected(p.client, env, s.client);
      && Act(p, s, ClientClose(env)) == ClientDid(p, s, r, false)
      && r.client == s.client.(aesKey := None) && Writable(p, r.out) && r.out == SILENT.(send := r.out.send, closing := true)
      && (r.out.send.Some? ==> s.client.handshakeComplete)
  {
    hide ClientDid, Fits;
  }

  /** Closing the client's end says goodbye if it has finished, and wipes its key. */
  lemma ClientCloses(p: Params, s: Session, env: C.Env)
    requires p.Valid() && SessionInv(p, s) && CanAct(p, s, ClientClose(env))
    ensures SessionInv(p, Act(p, s, ClientClose(env)))
  {
    hide Carries, Core, LinkOk, Fits, Fresh, Act, ClientDid, CanAct, C.Disconnected, Stage;
    ClientClosesIs(p, s, env);
    ClientDidFacts(p, s, C.Disconnected(p.client, env, s.client), false);
    DisturbedStage(p, s, Act(p, s, ClientClose(env)));
  }
}
