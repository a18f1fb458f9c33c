/** What holds of a client in every run, whatever messages arrive. */
module ClientRuns {
  import opened Wrappers
  import opened Bytes
  import opened Framing
  import opened Protocol
  import opened ClientConnection
  import RL = RecordLayer

  datatype Event =
    | Connecting(env: Env)
    | Message(env: Env, raw: bytes)
    | Sending(env: Env, serviceId: string, body: bytes)
    | Closed

  function Step(cfg: Config, c: Client, e: Event): Outcome {
    match e
    case Connecting(env) => if c.phase == Unconnected then Connected(cfg, env, c) else Outcome(c, SILENT)
    case Message(env, raw) => OnMessage(cfg, env, c, raw)
    case Sending(env, serviceId, body) => Sent(cfg, env, c, serviceId, body)
    case Closed => Outcome(OnClosed(c), SILENT)
  }

  function After(cfg: Config, start: Client, events: seq<Event>): Client {
    if events == [] then start else Step(cfg, After(cfg, start, events[..|events| - 1]), events[|events| - 1]).client
  }

  /** The only phase changes there are. */
  predicate Moves(a: Phase, b: Phase) {
    || a == b
    || (a == Unconnected && b == ClientHelloSent)
    || (a == ClientHelloSent && b == ClientAuthSent)
    || ((a == ClientHelloSent || a == ClientAuthSent) && Ended(b))
  }

  /** The message of this event, if it is well formed and of this kind. */
  predicate Carries(cfg: Config, e: Event, kind: Kind) {
    e.Message? && cfg.suite.decode(e.raw).Some? && ValidSchema(cfg.suite.decode(e.raw).value) && cfg.suite.decode(e.raw).value.kind == kind
  }

  /**
   * A server hello whose certificate is valid and names its two keys: the signing key, and the
   * key encapsulation key that this channel key was encapsulated to.
   */
  predicate Introduces(cfg: Config, e: Event, correlationId: string, sigKey: bytes, aesKey: bytes) {
    && Carries(cfg, e, ServerHello) && e.env.certValid
    && var w := cfg.suite.decode(e.raw).value;
    && w.sigPublicKey == Some(sigKey)
    && w.certificate.value.sigPublicKey == sigKey && Some(w.certificate.value.kemPublicKey) == w.kemPublicKey
    && aesKey == cfg.suite.channelKey(cfg.suite.encapsulate(w.kemPublicKey.value, e.env.coin).1, correlationId)
  }

  /** The message is signed under the key over that key, the channel, its own nonce and time, and its ticket. */
  predicate SignedAnswer(cfg: Config, w: Wire, key: bytes, correlationId: string) {
    && w.nonce.Some? && w.timestamp.Some? && w.signature.Some?
    && cfg.suite.verify(key,
         cfg.suite.serverAuthData(key, correlationId, w.nonce.value, w.timestamp.value, w.sessionTicket),
         w.signature.value)
  }

  /** A server answer signed under this key for this channel. */
  predicate Proves(cfg: Config, e: Event, key: bytes, correlationId: string) {
    && Carries(cfg, e, ServerAuthResponse)
    && cfg.suite.decode(e.raw).value.sigPublicKey == Some(key)
    && SignedAnswer(cfg, cfg.suite.decode(e.raw).value, key, correlationId)
  }

  /** The sequence numbers of the records counted as received, in order. */
  function Accepted(cfg: Config, start: Client, events: seq<Event>): seq<nat> {
    if events == [] then []
    else
      var before := events[..|events| - 1];
      var accepted := Step(cfg, After(cfg, start, before), events[|events| - 1]).out.accepted;
      Accepted(cfg, start, before) + if accepted.Some? then [accepted.value] else []
  }

  /** What one event may do to a client. */
  predicate StepAllowed(cfg: Config, c: Client, e: Event, r: Outcome) {
    var d := r.client;
    && Moves(c.phase, d.phase) && d.correlationId == c.correlationId && d.sigKeys == c.sigKeys
    && (d.aesKey == c.aesKey || d.aesKey.None? ||
        (c.phase == ClientHelloSent && d.serverSigPublicKey.Some?
         && Introduces(cfg, e, c.correlationId, d.serverSigPublicKey.value, d.aesKey.value)
         && (d.phase == ClientAuthSent || r.out.failure == Some(FrameTooLong))))
    && (d.phase != c.phase && d.phase == ClientAuthSent ==>
          d.serverSigPublicKey.Some? && d.aesKey.Some?
          && Introduces(cfg, e, c.correlationId, d.serverSigPublicKey.value, d.aesKey.value))
    && (d.phase != c.phase && Ended(d.phase) ==>
          c.aesKey.Some? && d.serverSigPublicKey.Some? && Proves(cfg, e, d.serverSigPublicKey.value, c.correlationId))
    && (c.phase != ClientHelloSent && c.serverSigPublicKey.Some? ==> d.serverSigPublicKey == c.serverSigPublicKey)
    && (if r.out.accepted.Some? then d.recvSequence == c.recvSequence + 1 == r.out.accepted.value else d.recvSequence == c.recvSequence)
    && (r.out.delivered.Some? ==> r.out.accepted.Some? && Ended(c.phase))
  }

  lemma HelloFacts(cfg: Config, env: Env, c: Client, w: Wire)
    requires ValidSchema(w) && w.kind == ServerHello
    ensures
      var r := OnServerHello(cfg, env, c, w);
      var d := r.client;
      && d == c.(phase := d.phase, serverSigPublicKey := d.serverSigPublicKey, aesKey := d.aesKey, layer := d.layer)
      && (c.phase != ClientHelloSent ==> d == c)
      && (d.phase == c.phase || d.phase == ClientAuthSent)
      && r.out.accepted.None? && r.out.delivered.None?
      && (d.aesKey != c.aesKey || d.phase != c.phase ==>
            && env.certValid && w.sigPublicKey.Some? && d.serverSigPublicKey == w.sigPublicKey
            && w.certificate.value.sigPublicKey == w.sigPublicKey.value && Some(w.certificate.value.kemPublicKey) == w.kemPublicKey
            && d.aesKey == Some(cfg.suite.channelKey(cfg.suite.encapsulate(w.kemPublicKey.value, env.coin).1, c.correlationId))
            && (d.phase == ClientAuthSent || r.out.failure == Some(FrameTooLong)))
  {
    hide Fits, RL.Layer.SetChannel;
  }

  lemma AuthFacts(cfg: Config, c: Client, w: Wire)
    requires ValidSchema(w) && w.kind == ServerAuthResponse
    ensures
      var r := OnServerAuth(cfg, c, w);
      var d := r.client;
      && d.correlationId == c.correlationId && d.sigKeys == c.sigKeys && d.recvSequence == c.recvSequence && d.aesKey == c.aesKey
      && (c.phase != ClientHelloSent && c.phase != ClientAuthSent ==> d == c)
      && (d.phase == c.phase || Ended(d.phase))
      && r.out.accepted.None? && r.out.delivered.None?
      && (c.serverSigPublicKey.Some? ==> d.serverSigPublicKey == c.serverSigPublicKey)
      && (d.phase != c.phase ==>
            && c.aesKey.Some? && d.serverSigPublicKey.Some? && d.serverSigPublicKey == w.sigPublicKey
            && SignedAnswer(cfg, w, w.sigPublicKey.value, c.correlationId))
  {
    hide RL.Layer.SetChannel;
  }

  lemma DataFacts(cfg: Config, c: Client, w: Wire)
    requires ValidSchema(w) && w.kind == EncryptedData
    ensures
      var r := OnEncryptedData(cfg, c, w);
      var d := r.client;
      && d == c.(recvSequence := d.recvSequence)
      && (if r.out.accepted.Some? then d.recvSequence == c.recvSequence + 1 == r.out.accepted.value else d.recvSequence == c.recvSequence)
      && (r.out.delivered.Some? ==> r.out.accepted.Some? && Ended(c.phase))
  {
    hide RL.Layer.Open, RecordIn;
  }

  lemma StepFacts(cfg: Config, c: Client, e: Event)
    ensures StepAllowed(cfg, c, e, Step(cfg, c, e))
  {
    hide Fits, SignedAnswer, RL.Layer.Seal, OnServerHello, OnServerAuth, OnEncryptedData, ValidSchema, Admits, Consulted;
    if e.Message? && cfg.suite.decode(e.raw).Some? && ValidSchema(cfg.suite.decode(e.raw).value) {
      var w := cfg.suite.decode(e.raw).value;
      var checked := c.(guard := Consulted(c.guard, w, e.env.purgeTime, e.env.now));
      match w.kind
      case ServerHello => HelloFacts(cfg, e.env, checked, w);
      case ServerAuthResponse => AuthFacts(cfg, checked, w);
      case EncryptedData => DataFacts(cfg, checked, w);
      case _ =>
    }
  }

  // ---------- What a step answers ----------

  /** Why a message does not reach its handler, in the order of the tests. */
  function Objection(cfg: Config, env: Env, c: Client, raw: bytes): Option<Failure> {
    var parsed := cfg.suite.decode(raw);
    if parsed.None? then Some(Malformed)
    else if !ValidSchema(parsed.value) then Some(SchemaViolation)
    else if Replayed(c.guard, parsed.value, env.purgeTime, env.now) then Some(ReplayRejected)
    else if parsed.value.protocolVersion.GetOr(0) != 0 && parsed.value.protocolVersion.value != cfg.protocolVersion then Some(VersionMismatch)
    else if parsed.value.kind != CloseNotify && parsed.value.correlationId.GetOr("") != "" && parsed.value.correlationId.value != c.correlationId then
      Some(CorrelationMismatch)
    else None
  }

  /** The record of this message is the next one of an open channel, and what becomes of it is what it opens to. */
  predicate TakesRecord(cfg: Config, c: Client, w: Wire, r: Outcome)
    requires ValidSchema(w)
  {
    (r.out.accepted.Some? <==> w.kind == EncryptedData && Ended(c.phase) && c.aesKey.Some? && w.sequence.value == c.recvSequence + 1)
    && (if r.out.accepted.Some? then
          var record := RL.EncryptedRecord(w.data.value, w.iv.value, w.authTag.value, w.sequence.value);
          var found := c.layer.Open(cfg.suite.sealing, c.aesKey.value, record, w.timestamp.value, RL.Application);
          if found.Err? then r.out.failure == Some(DecryptFailed) && r.out.delivered.None?
          else
            r.out == SILENT.(accepted := r.out.accepted,
                             delivered := if found.value.recordType != RL.Application then None
                                          else Some(Delivery(found.value.serviceId, found.value.body)))
        else r.out.delivered.None?)
    && (r.out.failure == Some(SequenceReplay) ==> w.kind == EncryptedData && w.sequence.value <= c.recvSequence)
    && (r.out.failure == Some(SequenceGap) ==> w.kind == EncryptedData && w.sequence.value > c.recvSequence + 1)
  }

  /**
   * A ping is answered with its own number and a goodbye with another one if the handshake had
   * ended; server messages only are expected, and one in the wrong phase changes nothing.
   */
  predicate Replies(cfg: Config, env: Env, c: Client, w: Wire, r: Outcome) {
    var bye := Attach(CloseNotify, c.correlationId, env.nonce, env.now);
    && (w.kind == HeartbeatPing && r.out.failure.None? ==>
          r.out == SILENT.(send := Some(Attach(HeartbeatPong, c.correlationId, env.nonce, env.now).(sequence := w.sequence))))
    && (w.kind == HeartbeatPong ==> r == Outcome(c, SILENT))
    && (w.kind == HandshakeError ==> r == Outcome(c, SILENT.(failure := Some(PeerError))))
    && (w.kind in {ClientHello, SessionResume, ClientAuthResponse} ==> r == Outcome(c, SILENT.(failure := Some(UnexpectedMessage))))
    && ((w.kind == ServerHello && c.phase != ClientHelloSent)
        || (w.kind == ServerAuthResponse && c.phase != ClientHelloSent && c.phase != ClientAuthSent)
        || (w.kind == EncryptedData && c.phase != Established && c.phase != Resumed) ==>
          r == Outcome(c, SILENT.(failure := Some(InvalidPhase))))
    && (w.kind == CloseNotify ==>
          && r.client == c.(aesKey := None)
          && r.out == SILENT.(closing := true,
                              send := if c.handshakeComplete && Frame(cfg.suite.encode(bye), cfg.maxMessageBytes).Ok? then Some(bye) else None))
  }

  /** Finishing keeps the ticket of the answer and sets the channel up with the key held; it resumes only straight after the hello. */
  predicate Finishes(cfg: Config, c: Client, w: Wire, d: Client) {
    Ended(d.phase) && !Ended(c.phase) ==>
      && d.handshakeComplete && c.aesKey.Some? && d.aesKey == c.aesKey
      && d.sessionTicket == (if w.sessionTicket.GetOr("") != "" then w.sessionTicket else c.sessionTicket)
      && d.phase == (if c.phase == ClientHelloSent && d.sessionTicket.GetOr("") != "" then Resumed else Established)
      && d.layer == RL.Layer(if cfg.imperial.enabled then Some(RL.Stack(c.aesKey.value, c.correlationId, cfg.imperial)) else c.layer.stack,
                             Some(c.correlationId))
  }

  /** What the client would write in answer to this message. */
  function Answer(cfg: Config, env: Env, c: Client, w: Wire): Wire {
    if w.kind == ServerHello then AuthMessage(cfg, env, c, cfg.suite.encapsulate(w.kemPublicKey.GetOr([]), env.coin).0)
    else Attach(HeartbeatPong, c.correlationId, env.nonce, env.now).(sequence := w.sequence)
  }

  /**
   * The peer is told of no failure, and failures that come from the surroundings are theirs: the
   * certificate does not vouch for both keys, or the answer's frame is too long.
   */
  predicate BlamesRightly(cfg: Config, env: Env, c: Client, w: Wire, r: Outcome) {
    && (r.out.failure.Some? ==> r.out.send.None?)
    && (r.out.failure == Some(CertInvalid) ==>
          w.certificate.Some? && !(env.certValid && Some(w.certificate.value.kemPublicKey) == w.kemPublicKey
                                   && Some(w.certificate.value.sigPublicKey) == w.sigPublicKey))
    && (r.out.failure == Some(FrameTooLong) ==> Frame(cfg.suite.encode(Answer(cfg, env, c, w)), cfg.maxMessageBytes).Err?)
    && (r.out.failure.Some? ==> r.out.failure.value !in {AllowlistRejected, SealFailed, RouteFailed, TimedOut})
  }

  /** A message that does not reach its handler changes nothing but the guard; one that does is answered as its kind requires. */
  predicate MessageAnswered(cfg: Config, env: Env, c: Client, raw: bytes, r: Outcome) {
    var objection := Objection(cfg, env, c, raw);
    var checked := c.(guard := r.client.guard);
    if objection.Some? then r.client == checked && r.out == SILENT.(failure := objection)
    else
      var w := cfg.suite.decode(raw).value;
      && TakesRecord(cfg, checked, w, r) && Replies(cfg, env, checked, w, r) && BlamesRightly(cfg, env, checked, w, r)
      && Finishes(cfg, checked, w, r.client)
  }

  lemma DispatchTakes(cfg: Config, env: Env, c: Client, w: Wire)
    requires ValidSchema(w)
    ensures TakesRecord(cfg, c, w, Dispatch(cfg, env, c, w)) && Dispatch(cfg, env, c, w).client.guard == c.guard
  {
    hide Fits, AuthMessage, RL.Layer.Open, RL.Layer.SetChannel;
  }

  lemma DispatchReplies(cfg: Config, env: Env, c: Client, w: Wire)
    requires ValidSchema(w)
    ensures Replies(cfg, env, c, w, Dispatch(cfg, env, c, w)) && BlamesRightly(cfg, env, c, w, Dispatch(cfg, env, c, w))
  {
    hide Frame, RL.Layer.Open, RL.Layer.SetChannel, RecordIn;
  }

  lemma DispatchFinishes(cfg: Config, env: Env, c: Client, w: Wire)
    requires ValidSchema(w)
    ensures Finishes(cfg, c, w, Dispatch(cfg, env, c, w).client)
  {
    hide Fits, AuthMessage, RL.Layer.Open, RecordIn;
  }

  lemma MessageIsAnswered(cfg: Config, env: Env, c: Client, raw: bytes)
    ensures MessageAnswered(cfg, env, c, raw, OnMessage(cfg, env, c, raw))
  {
    hide Frame, ValidSchema, Dispatch, Admits, Replayed, Consulted, TakesRecord, Replies, BlamesRightly, Finishes;
    if cfg.suite.decode(raw).Some? {
      ReplayedExactly(c.guard, cfg.suite.decode(raw).value, env.purgeTime, env.now);
    }
    if Objection(cfg, env, c, raw).None? {
      var w := cfg.suite.decode(raw).value;
      var checked := c.(guard := Consulted(c.guard, w, env.purgeTime, env.now));
      DispatchTakes(cfg, env, checked, w);
      DispatchReplies(cfg, env, checked, w);
      DispatchFinishes(cfg, env, checked, w);
    }
  }

  /** The message is a record of this channel that opens to this payload. */
  ghost predicate Opens(cfg: Config, w: Wire, nonce: string, c: Client, payload: RL.RecordPayload) {
    exists record ::
      && w == DataMessage(c.correlationId, nonce, payload.imperialTimestamp, record) && record.sequence == c.sendSequence
      && c.aesKey.Some?
      && c.layer.Open(cfg.suite.sealing, c.aesKey.value, record, payload.imperialTimestamp, payload.recordType) == Ok(payload)
  }

  /**
   * On an open channel a body goes out under the next number, as a record that opens to it for
   * the same service, unless sealing or the frame fails; the number is used up either way.
   */
  ghost predicate BodyAnswered(cfg: Config, env: Env, c: Client, serviceId: string, body: bytes, r: Outcome) {
    var open := Ended(c.phase) && c.aesKey.Some?;
    var next := c.sendSequence + 1;
    var payload := RL.RecordPayload(RL.Application, serviceId, body, env.now);
    var sealed := c.layer.Seal(cfg.suite.sealing, c.aesKey.GetOr([]), payload, next, env.iv, env.noise);
    && r.client == c.(sendSequence := if open then next else c.sendSequence)
    && r.out == SILENT.(send := r.out.send, failure := r.out.failure) && (r.out.send.Some? <==> r.out.failure.None?)
    && (r.out.failure == Some(InvalidPhase) <==> !open)
    && (r.out.failure == Some(SealFailed) <==> open && sealed.Err?)
    && (r.out.failure == Some(FrameTooLong) ==>
          sealed.Ok? && Frame(cfg.suite.encode(DataMessage(c.correlationId, env.nonce, env.now, sealed.value)), cfg.maxMessageBytes).Err?)
    && (r.out.failure.Some? ==> r.out.failure.value in {InvalidPhase, SealFailed, FrameTooLong})
    && (r.out.failure.None? && cfg.suite.sealing.Sound() && c.layer.HeaderFits(cfg.suite.sealing, payload, next) ==>
          Opens(cfg, r.out.send.value, env.nonce, r.client, payload))
  }

  lemma BodyIsAnswered(cfg: Config, env: Env, c: Client, serviceId: string, body: bytes)
    ensures BodyAnswered(cfg, env, c, serviceId, body, Sent(cfg, env, c, serviceId, body))
  {
    hide RL.Layer.Seal, RL.Layer.Open, RL.Layer.HeaderFits, RL.Sealing.Sound, Frame, DataMessage;
    var next := c.sendSequence + 1;
    if Ended(c.phase) && c.aesKey.Some? {
      var payload := RL.RecordPayload(RL.Application, serviceId, body, env.now);
      var sealed := c.layer.Seal(cfg.suite.sealing, c.aesKey.value, payload, next, env.iv, env.noise);
      if sealed.Ok? {
        RL.SealKeepsSequence(c.layer, cfg.suite.sealing, c.aesKey.value, payload, next, env.iv, env.noise);
        if cfg.suite.sealing.Sound() {
          RL.OpenUndoesSeal(c.layer, cfg.suite.sealing, c.aesKey.value, payload, next, env.iv, env.noise);
        }
      }
    }
  }

  lemma {:induction false} PhasesOnlyAdvance(cfg: Config, start: Client, events: seq<Event>, i: nat)
    requires i < |events|
    ensures Moves(After(cfg, start, events[..i]).phase, After(cfg, start, events[..i + 1]).phase)
  {
    hide Step, Introduces, Proves;
    StepFacts(cfg, After(cfg, start, events[..i]), events[i]);
    assert events[..i + 1][..i] == events[..i];
  }

  /** Some event introduced the signing key and the channel key together. */
  ghost predicate Introduced(cfg: Config, events: seq<Event>, correlationId: string, sigKey: bytes, aesKey: bytes) {
    exists j :: 0 <= j < |events| && Introduces(cfg, events[j], correlationId, sigKey, aesKey)
  }

  ghost predicate Proved(cfg: Config, events: seq<Event>, key: bytes, correlationId: string) {
    exists j :: 0 <= j < |events| && Proves(cfg, events[j], key, correlationId)
  }

  lemma IntroducedLater(cfg: Config, events: seq<Event>, correlationId: string, sigKey: bytes, aesKey: bytes)
    requires events != []
    requires Introduced(cfg, events[..|events| - 1], correlationId, sigKey, aesKey)
      || Introduces(cfg, events[|events| - 1], correlationId, sigKey, aesKey)
    ensures Introduced(cfg, events, correlationId, sigKey, aesKey)
  {
    hide Introduces;
    var m := |events| - 1;
    if Introduced(cfg, events[..m], correlationId, sigKey, aesKey) {
      var j :| 0 <= j < m && Introduces(cfg, events[..m][j], correlationId, sigKey, aesKey);
      assert events[..m][j] == events[j];
    }
  }

  lemma ProvedLater(cfg: Config, events: seq<Event>, key: bytes, correlationId: string)
    requires events != []
    requires Proved(cfg, events[..|events| - 1], key, correlationId) || Proves(cfg, events[|events| - 1], key, correlationId)
    ensures Proved(cfg, events, key, correlationId)
  {
    hide Proves;
    var m := |events| - 1;
    if Proved(cfg, events[..m], key, correlationId) {
      var j :| 0 <= j < m && Proves(cfg, events[..m][j], key, correlationId);
      assert events[..m][j] == events[j];
    }
  }

  /**
   * Whatever messages arrive, any channel key that the client holds was encapsulated to a key
   * that a valid certificate named, and a client that has finished holds a server
   * key under which an answer for its channel was signed.
   */
  lemma {:induction false} RunKeyed(cfg: Config, start: Client, events: seq<Event>)
    requires start.phase == Unconnected && start.aesKey.None?
    ensures
      var c := After(cfg, start, events);
      && c.correlationId == start.correlationId
      && (c.aesKey.Some? ==> exists sigKey :: Introduced(cfg, events, c.correlationId, sigKey, c.aesKey.value))
      && (Ended(c.phase) ==> c.serverSigPublicKey.Some? && Proved(cfg, events, c.serverSigPublicKey.value, c.correlationId))
    decreases |events|
  {
    hide Step, Introduces, Proves, Introduced, Proved;
    if events != [] {
      var m := |events| - 1;
      var c, d := After(cfg, start, events[..m]), After(cfg, start, events);
      RunKeyed(cfg, start, events[..m]);
      StepFacts(cfg, c, events[m]);
      if d.aesKey.Some? {
        if d.aesKey == c.aesKey {
          var sigKey :| Introduced(cfg, events[..m], c.correlationId, sigKey, c.aesKey.value);
          IntroducedLater(cfg, events, c.correlationId, sigKey, d.aesKey.value);
        } else {
          IntroducedLater(cfg, events, c.correlationId, d.serverSigPublicKey.value, d.aesKey.value);
        }
      }
      if Ended(d.phase) {
        ProvedLater(cfg, events, d.serverSigPublicKey.value, c.correlationId);
      }
    }
  }

  /** No step of the run failed because a frame was too long. */
  ghost predicate FramesFit(cfg: Config, start: Client, events: seq<Event>) {
    forall i :: 0 <= i < |events| ==> Step(cfg, After(cfg, start, events[..i]), events[i]).out.failure != Some(FrameTooLong)
  }

  /** One certificate named the server's signing key and the key behind the channel key. */
  ghost predicate Certified(cfg: Config, events: seq<Event>, c: Client) {
    && c.serverSigPublicKey.Some?
    && exists aesKey :: Introduced(cfg, events, c.correlationId, c.serverSigPublicKey.value, aesKey) && (c.aesKey.Some? ==> c.aesKey.value == aesKey)
  }

  /**
   * When every frame of the client fits, a client that has sent its authentication or has finished
   * knows its server from one valid certificate: it named the signing key
   * under which the answer was signed and the key behind the channel key.
   */
  lemma {:induction false} RunCertified(cfg: Config, start: Client, events: seq<Event>)
    requires start.phase == Unconnected && start.aesKey.None? && FramesFit(cfg, start, events)
    ensures
      var c := After(cfg, start, events);
      && (c.phase == Unconnected || c.phase == ClientHelloSent ==> c.aesKey.None?)
      && (c.phase == ClientAuthSent || Ended(c.phase) ==> c.serverSigPublicKey.Some? && Certified(cfg, events, c))
    decreases |events|
  {
    hide Step, Introduces, Proves, Introduced, Certified;
    if events != [] {
      var m := |events| - 1;
      var c, d := After(cfg, start, events[..m]), After(cfg, start, events);
      assert FramesFit(cfg, start, events[..m]) by {
        forall i | 0 <= i < m ensures Step(cfg, After(cfg, start, events[..m][..i]), events[..m][i]).out.failure != Some(FrameTooLong) {
          assert events[..m][..i] == events[..i];
        }
      }
      assert events[..m] == events[..|events| - 1];
      RunCertified(cfg, start, events[..m]);
      StepFacts(cfg, c, events[m]);
      CertifiedLater(cfg, c, d, events);
    }
  }

  lemma CertifiedLater(cfg: Config, c: Client, d: Client, events: seq<Event>)
    requires events != [] && d.correlationId == c.correlationId
    ensures Certified(cfg, events[..|events| - 1], c) && d.serverSigPublicKey == c.serverSigPublicKey && d.aesKey in {c.aesKey, None}
      ==> Certified(cfg, events, d)
    ensures (d.serverSigPublicKey.Some? && d.aesKey.Some? &&
             Introduces(cfg, events[|events| - 1], c.correlationId, d.serverSigPublicKey.value, d.aesKey.value))
      ==> Certified(cfg, events, d)
  {
    hide Introduces, Introduced;
    var before := events[..|events| - 1];
    if Certified(cfg, before, c) && d.serverSigPublicKey == c.serverSigPublicKey && d.aesKey in {c.aesKey, None} {
      var aesKey :| Introduced(cfg, before, c.correlationId, c.serverSigPublicKey.value, aesKey) && (c.aesKey.Some? ==> c.aesKey.value == aesKey);
      IntroducedLater(cfg, events, c.correlationId, c.serverSigPublicKey.value, aesKey);
    }
    if d.serverSigPublicKey.Some? && d.aesKey.Some?
      && Introduces(cfg, events[|events| - 1], c.correlationId, d.serverSigPublicKey.value, d.aesKey.value)
    {
      IntroducedLater(cfg, events, c.correlationId, d.serverSigPublicKey.value, d.aesKey.value);
    }
  }

  /** In every run the records counted as received carry exactly the numbers 1, 2, 3, ... */
  lemma {:induction false} SequencesAreStrict(cfg: Config, start: Client, events: seq<Event>)
    requires start.recvSequence == 0
    ensures Accepted(cfg, start, events) == seq(After(cfg, start, events).recvSequence, i requires i >= 0 => i + 1)
    decreases |events|
  {
    hide Step, Introduces, Proves;
    if events != [] {
      var m := |events| - 1;
      SequencesAreStrict(cfg, start, events[..m]);
      StepFacts(cfg, After(cfg, start, events[..m]), events[m]);
    }
  }
}
