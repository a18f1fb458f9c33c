/** One server connection: the handshake phase machine and the record exchange. */
module ServerConnection {
  import opened Wrappers
  import opened Bytes
  import opened Framing
  import opened Protocol
  import opened SessionStore
  import RG = ReplayGuard
  import RL = RecordLayer
  import Chaos
  import ImperialStack

  datatype Phase = Idle | ServerHelloSent | Established | Resumed

  datatype Config = Config(
    suite: Suite, sigKeys: KeyPair, imperial: ImperialStack.Config, sessionTtlMs: int, maxMessageBytes: nat)

  /** A record waiting for the router. */
  datatype Routing = Routing(serviceId: string, timestamp: int)

  datatype Conn = Conn(
    phase: Phase,
    correlationId: Option<string>,
    aesKey: Option<bytes>,
    pinnedKem: Option<KeyPair>,
    clientKey: Option<bytes>,
    sendSequence: nat,
    recvSequence: nat,
    guard: seq<RG.Entry>,
    layer: RL.Layer,
    routing: Option<Routing>)

  const FRESH := Conn(Idle, None, None, None, None, 0, 0, [], RL.Layer(None, None), None)

  /** What one handler sees of the rest of the server: two clock readings, allowlist, ticket store, active key, randomness. */
  datatype Env = Env(
    purgeTime: int,
    now: int,
    allowed: bytes -> bool,
    redeemed: Option<TicketPayload>,
    kem: KeyPair,
    nonce: string,
    iv: bytes,
    noise: Chaos.Noise)

  datatype Outcome = Outcome(conn: Conn, out: Output)

  predicate Ended(phase: Phase) {
    phase == Established || phase == Resumed
  }

  // ---------- Specification ----------

  function ErrorMessage(env: Env, c: Conn): Wire {
    Attach(HandshakeError, c.correlationId.GetOr("unknown"), env.nonce, env.now).(error := Some("HANDSHAKE_FAILED"))
  }

  /** Failing reports to the peer only before the handshake has ended; it never changes the connection. */
  function Fail(cfg: Config, env: Env, c: Conn, why: Failure): Outcome {
    var error := ErrorMessage(env, c);
    Outcome(c, SILENT.(send := if !Ended(c.phase) && Fits(cfg.suite, cfg.maxMessageBytes, error) then Some(error) else None,
                       failure := Some(why)))
  }

  function OnMessage(cfg: Config, env: Env, c: Conn, raw: bytes): Outcome {
    var parsed := cfg.suite.decode(raw);
    if parsed.None? then Fail(cfg, env, c, Malformed)
    else if !ValidSchema(parsed.value) then Fail(cfg, env, c, SchemaViolation)
    else
      var w := parsed.value;
      var checked := c.(guard := Consulted(c.guard, w, env.purgeTime, env.now));
      if !Admits(c.guard, w, env.purgeTime, env.now) then Fail(cfg, env, checked, ReplayRejected)
      else if Present(c.correlationId) && Present(w.correlationId) && w.correlationId != c.correlationId then
        Fail(cfg, env, checked, CorrelationMismatch)
      else Dispatch(cfg, env, checked, w)
  }

  function Dispatch(cfg: Config, env: Env, c: Conn, w: Wire): Outcome
    requires ValidSchema(w)
  {
    match w.kind
    case ClientHello => OnClientHello(cfg, env, c, w)
    case SessionResume => OnSessionResume(cfg, env, c, w)
    case ClientAuthResponse => OnClientAuth(cfg, env, c, w)
    case EncryptedData => OnEncryptedData(cfg, env, c, w)
    case HeartbeatPing => OnPing(cfg, env, c, w)
    case HeartbeatPong => Outcome(c, SILENT)
    case CloseNotify => Outcome(c, SILENT.(closing := true))
    case _ => Fail(cfg, env, c, UnexpectedMessage)
  }

  function HelloMessage(cfg: Config, env: Env, correlationId: string): Wire {
    Attach(ServerHello, correlationId, env.nonce, env.now).(
      kemPublicKey := Some(env.kem.publicKey),
      sigPublicKey := Some(cfg.sigKeys.publicKey),
      certificate := Some(Certificate(env.kem.publicKey, cfg.sigKeys.publicKey, cfg.suite.certify(cfg.sigKeys.publicKey, env.kem.publicKey))))
  }

  function OnClientHello(cfg: Config, env: Env, c: Conn, w: Wire): Outcome
    requires ValidSchema(w) && w.kind == ClientHello
  {
    if c.phase != Idle then Fail(cfg, env, c, InvalidPhase)
    else
      var pinned := c.(correlationId := w.correlationId, pinnedKem := Some(env.kem));
      var hello := HelloMessage(cfg, env, w.correlationId.value);
      var r :=
        if Fits(cfg.suite, cfg.maxMessageBytes, hello) then Outcome(pinned.(phase := ServerHelloSent), SILENT.(send := Some(hello)))
        else Fail(cfg, env, pinned, FrameTooLong);
      r.(out := r.out.(activated := true))
  }

  function ServerAuthMessage(cfg: Config, env: Env, correlationId: string, ticket: string): Wire {
    var data := cfg.suite.serverAuthData(cfg.sigKeys.publicKey, correlationId, env.nonce, env.now, Some(ticket));
    Attach(ServerAuthResponse, correlationId, env.nonce, env.now).(
      sigPublicKey := Some(cfg.sigKeys.publicKey),
      sessionTicket := Some(ticket),
      signature := Some(cfg.suite.sign(cfg.sigKeys.privateKey, data)))
  }

  /** Keys in place, the channel set up, and the signed answer written if its frame fits. */
  function Finish(cfg: Config, env: Env, c: Conn, correlationId: string, key: bytes, ticket: string, phase: Phase): Outcome {
    var keyed := c.(correlationId := Some(correlationId), aesKey := Some(key),
                    layer := c.layer.SetChannel(key, correlationId, cfg.imperial));
    var auth := ServerAuthMessage(cfg, env, correlationId, ticket);
    if Fits(cfg.suite, cfg.maxMessageBytes, auth) then Outcome(keyed.(phase := phase), SILENT.(send := Some(auth)))
    else Fail(cfg, env, keyed, FrameTooLong)
  }

  /** The ticket is consumed before anything about the client is checked. */
  function OnSessionResume(cfg: Config, env: Env, c: Conn, w: Wire): Outcome
    requires ValidSchema(w) && w.kind == SessionResume
  {
    if c.phase != Idle then Fail(cfg, env, c, InvalidPhase)
    else if w.signature.None? || w.clientPublicKeySig.None? then Fail(cfg, env, c, MissingField)
    else
      var r := ResumeWith(cfg, env, c, w);
      r.(out := r.out.(redeemed := w.sessionTicket))
  }

  function ResumeWith(cfg: Config, env: Env, c: Conn, w: Wire): Outcome
    requires ValidSchema(w) && w.kind == SessionResume && w.signature.Some? && w.clientPublicKeySig.Some?
  {
    if env.redeemed.None? then Fail(cfg, env, c, SessionExpired)
    else
      var payload, key := env.redeemed.value, w.clientPublicKeySig.value;
      if key == [] then Fail(cfg, env, c, EmptyBinary)
      else if key != payload.clientSigPublicKey then Fail(cfg, env, c, ResumeKeyMismatch)
      else if !env.allowed(key) then Fail(cfg, env, c, AllowlistRejected)
      else if w.signature.value == [] then Fail(cfg, env, c, EmptyBinary)
      else
        var data := cfg.suite.resumeData(w.sessionTicket.value, key, payload.correlationId, w.nonce.value, w.timestamp.value);
        if !cfg.suite.verify(key, data, w.signature.value) then Fail(cfg, env, c, SignatureInvalid)
        else Finish(cfg, env, c.(clientKey := Some(key)), payload.correlationId, payload.aesKey, w.sessionTicket.value, Resumed)
  }

  function OnClientAuth(cfg: Config, env: Env, c: Conn, w: Wire): Outcome
    requires ValidSchema(w) && w.kind == ClientAuthResponse
  {
    if c.phase != ServerHelloSent then Fail(cfg, env, c, InvalidPhase)
    else
      var key := w.clientPublicKeySig.value;
      if key == [] then Fail(cfg, env, c, EmptyBinary)
      else if !env.allowed(key) then Fail(cfg, env, c, AllowlistRejected)
      else if w.kemPublicKey.value == [] || w.encapsulatedKey.value == [] || w.signature.value == [] then Fail(cfg, env, c, EmptyBinary)
      else
        var known := c.(clientKey := Some(key));
        var correlationId := c.correlationId.GetOr("");
        var data := cfg.suite.clientAuthData(key, w.kemPublicKey.value, correlationId, w.nonce.value, w.timestamp.value);
        if !cfg.suite.verify(key, data, w.signature.value) then Fail(cfg, env, known, SignatureInvalid)
        else
          var secret := cfg.suite.decapsulate(c.pinnedKem.GetOr(env.kem).privateKey, w.encapsulatedKey.value);
          if secret.None? then Fail(cfg, env, known, DecapsulationFailed)
          else
            var aesKey := cfg.suite.channelKey(secret.value, correlationId);
            var ticket := Issued(cfg.suite.tickets, correlationId, aesKey, key, cfg.sigKeys.publicKey, env.now, cfg.sessionTtlMs, env.iv);
            Finish(cfg, env, known, correlationId, aesKey, ticket, Established)
  }

  /** Up to the router: the sequence number counts as received even if the record does not open. */
  function OnEncryptedData(cfg: Config, env: Env, c: Conn, w: Wire): Outcome
    requires ValidSchema(w) && w.kind == EncryptedData
  {
    if !Ended(c.phase) || c.aesKey.None? then Fail(cfg, env, c, InvalidPhase)
    else
      var n := w.sequence.value;
      if n != c.recvSequence + 1 then Fail(cfg, env, c, if n <= c.recvSequence then SequenceReplay else SequenceGap)
      else
        var received := c.(recvSequence := n);
        var record := c.layer.Open(cfg.suite.sealing, c.aesKey.value, RecordIn(w), w.timestamp.value, RL.Application);
        var r :=
          if record.Err? then Fail(cfg, env, received, DecryptFailed)
          else
            Outcome(received.(routing := Some(Routing(record.value.serviceId, w.timestamp.value))),
                    SILENT.(delivered := Some(Delivery(record.value.serviceId, record.value.body))));
        r.(out := r.out.(accepted := Some(n)))
  }

  function OnPing(cfg: Config, env: Env, c: Conn, w: Wire): Outcome
    requires ValidSchema(w) && w.kind == HeartbeatPing
  {
    if !Present(c.correlationId) then Outcome(c, SILENT)
    else
      var pong := Attach(HeartbeatPong, c.correlationId.value, env.nonce, env.now).(sequence := w.sequence);
      if Fits(cfg.suite, cfg.maxMessageBytes, pong) then Outcome(c, SILENT.(send := Some(pong)))
      else Fail(cfg, env, c, FrameTooLong)
  }

  /** The router has answered, or thrown; the connection may have closed meanwhile. */
  function OnRouted(cfg: Config, env: Env, c: Conn, answer: Option<bytes>): Outcome
    requires c.routing.Some?
  {
    var free := c.(routing := None);
    if answer.None? then Fail(cfg, env, free, RouteFailed)
    else
      var counted := free.(sendSequence := c.sendSequence + 1);
      if c.aesKey.None? then Fail(cfg, env, counted, KeyMissing)
      else
        var payload := RL.RecordPayload(RL.Application, c.routing.value.serviceId, answer.value, c.routing.value.timestamp);
        var sealed := c.layer.Seal(cfg.suite.sealing, c.aesKey.value, payload, counted.sendSequence, env.iv, env.noise);
        if sealed.Err? then Fail(cfg, env, counted, SealFailed)
        else
          var reply := DataMessage(c.correlationId.GetOr(""), env.nonce, c.routing.value.timestamp, sealed.value);
          if Fits(cfg.suite, cfg.maxMessageBytes, reply) then Outcome(counted, SILENT.(send := Some(reply)))
          else Fail(cfg, env, counted, FrameTooLong)
  }

  /** Closing wipes the channel key and nothing else. */
  function OnClosed(c: Conn): Conn {
    c.(aesKey := None)
  }

  // ---------- Runs under arbitrary messages ----------

  datatype Event = Message(env: Env, raw: bytes) | Routed(env: Env, answer: Option<bytes>) | Closed

  /** Handlers run one at a time: no message is handled while the router is awaited. */
  function Step(cfg: Config, c: Conn, e: Event): Outcome {
    match e
    case Message(env, raw) => if c.routing.Some? then Outcome(c, SILENT) else OnMessage(cfg, env, c, raw)
    case Routed(env, answer) => if c.routing.None? then Outcome(c, SILENT) else OnRouted(cfg, env, c, answer)
    case Closed => Outcome(OnClosed(c), SILENT)
  }

  function After(cfg: Config, events: seq<Event>): Conn {
    if events == [] then FRESH else Step(cfg, After(cfg, events[..|events| - 1]), events[|events| - 1]).conn
  }

  /** The sequence numbers accepted in a run, in order. */
  function Accepted(cfg: Config, events: seq<Event>): seq<nat> {
    if events == [] then []
    else
      var before := events[..|events| - 1];
      var accepted := Step(cfg, After(cfg, before), events[|events| - 1]).out.accepted;
      Accepted(cfg, before) + if accepted.Some? then [accepted.value] else []
  }

  function Busy(c: Conn): nat {
    if c.routing.Some? then 1 else 0
  }

  /** What holds between any two handlers. */
  predicate Consistent(c: Conn) {
    && (c.phase == ServerHelloSent ==> c.correlationId.Some? && c.pinnedKem.Some?)
    && (Ended(c.phase) ==> c.correlationId.Some? && c.clientKey.Some?)
    && c.sendSequence + Busy(c) <= c.recvSequence
  }

  /** The only phase changes there are. */
  predicate Moves(a: Phase, b: Phase) {
    a == b || (a == Idle && b == ServerHelloSent) || (a == ServerHelloSent && b == Established) || (a == Idle && b == Resumed)
  }

  /** The message is signed under the key over that key, the client's encapsulation key, the channel, and its own nonce and time. */
  predicate SignedKeys(cfg: Config, w: Wire, key: bytes, correlationId: string) {
    && w.kemPublicKey.Some? && w.nonce.Some? && w.timestamp.Some? && w.signature.Some?
    && cfg.suite.verify(key,
         cfg.suite.clientAuthData(key, w.kemPublicKey.value, correlationId, w.nonce.value, w.timestamp.value),
         w.signature.value)
  }

  /** The message is signed under the key over its ticket, that key, the channel, and its own nonce and time. */
  predicate SignedResumption(cfg: Config, w: Wire, key: bytes, correlationId: string) {
    && w.sessionTicket.Some? && w.nonce.Some? && w.timestamp.Some? && w.signature.Some?
    && cfg.suite.verify(key,
         cfg.suite.resumeData(w.sessionTicket.value, key, correlationId, w.nonce.value, w.timestamp.value),
         w.signature.value)
  }

  /** In this event the key passed the allowlist and its owner's signature verified for this channel. */
  predicate Authenticates(cfg: Config, before: Conn, e: Event, phase: Phase, key: bytes, correlationId: string) {
    && e.Message? && e.env.allowed(key)
    && var parsed := cfg.suite.decode(e.raw);
    && parsed.Some? && ValidSchema(parsed.value) && parsed.value.clientPublicKeySig == Some(key)
    && Admits(before.guard, parsed.value, e.env.purgeTime, e.env.now)
    && (if phase == Established then
          && parsed.value.kind == ClientAuthResponse && before.phase == ServerHelloSent
          && SignedKeys(cfg, parsed.value, key, correlationId)
        else
          && parsed.value.kind == SessionResume && before.phase == Idle
          && e.env.redeemed.Some? && e.env.redeemed.value.clientSigPublicKey == key
          && SignedResumption(cfg, parsed.value, key, correlationId))
  }

  /** After the handshake, only the counters, the guard and the route may change; closing wipes the key. */
  predicate Settled(c: Conn, d: Conn) {
    d == c.(sendSequence := d.sendSequence, recvSequence := d.recvSequence, guard := d.guard, routing := d.routing, aesKey := d.aesKey)
  }

  /** What one step may do to the phase, the counters and the peer's identity. */
  predicate StepAllowed(cfg: Config, c: Conn, e: Event, r: Outcome) {
    && Moves(c.phase, r.conn.phase)
    && (c.phase != Idle ==> r.conn.correlationId == c.correlationId && r.conn.pinnedKem == c.pinnedKem)
    && (Ended(c.phase) ==> Settled(c, r.conn) && (e.Closed? || r.conn.aesKey == c.aesKey))
    && (!Ended(c.phase) && Ended(r.conn.phase) ==>
          r.conn.clientKey.Some? && r.conn.correlationId.Some?
          && Authenticates(cfg, c, e, r.conn.phase, r.conn.clientKey.value, r.conn.correlationId.value))
    && (if r.out.accepted.Some? then r.conn.recvSequence == c.recvSequence + 1 == r.out.accepted.value
        else r.conn.recvSequence == c.recvSequence)
    && (r.out.delivered.Some? <==> c.routing.None? && r.conn.routing.Some?)
    && (r.out.delivered.Some? ==> r.out.accepted.Some? && Ended(c.phase))
  }

  lemma MessageFacts(cfg: Config, env: Env, c: Conn, w: Wire)
    requires Consistent(c) && c.routing.None? && ValidSchema(w)
    ensures
      var r := Dispatch(cfg, env, c, w);
      && Consistent(r.conn) && Moves(c.phase, r.conn.phase) && r.conn.guard == c.guard && r.conn.sendSequence == c.sendSequence
      && (Ended(c.phase) ==> Settled(c, r.conn) && r.conn.aesKey == c.aesKey)
      && (if r.out.accepted.Some? then r.conn.recvSequence == c.recvSequence + 1 == r.out.accepted.value
          else r.conn.recvSequence == c.recvSequence)
      && (r.out.delivered.Some? <==> r.conn.routing.Some?)
      && (r.out.delivered.Some? ==> r.out.accepted.Some? && Ended(c.phase))
  {
    hide Fits, ErrorMessage, HelloMessage, ServerAuthMessage, RL.Layer.Open, RL.Layer.SetChannel, RecordIn, Issued;
  }

  lemma EndFacts(cfg: Config, env: Env, c: Conn, w: Wire)
    requires Consistent(c) && ValidSchema(w) && !Ended(c.phase) && Ended(Dispatch(cfg, env, c, w).conn.phase)
    ensures
      var d := Dispatch(cfg, env, c, w).conn;
      && w.clientPublicKeySig.Some? && d.clientKey == w.clientPublicKeySig && env.allowed(w.clientPublicKeySig.value)
      && d.correlationId.Some?
      && (if d.phase == Established then
            && w.kind == ClientAuthResponse && c.phase == ServerHelloSent
            && SignedKeys(cfg, w, w.clientPublicKeySig.value, d.correlationId.value)
          else
            && w.kind == SessionResume && c.phase == Idle
            && env.redeemed.Some? && env.redeemed.value.clientSigPublicKey == w.clientPublicKeySig.value
            && SignedResumption(cfg, w, w.clientPublicKeySig.value, d.correlationId.value))
  {
    hide Fits, ErrorMessage, HelloMessage, ServerAuthMessage, RL.Layer.Open, RL.Layer.SetChannel, RecordIn, Issued;
  }

  lemma MessageKeeps(cfg: Config, env: Env, c: Conn, w: Wire)
    requires Consistent(c) && ValidSchema(w) && c.phase != Idle
    ensures
      var d := Dispatch(cfg, env, c, w).conn;
      d.correlationId == c.correlationId && d.pinnedKem == c.pinnedKem
  {
    hide Fits, ErrorMessage, HelloMessage, ServerAuthMessage, RL.Layer.Open, RL.Layer.SetChannel, RecordIn, Issued;
  }

  lemma StepFacts(cfg: Config, c: Conn, e: Event)
    requires Consistent(c)
    ensures StepAllowed(cfg, c, e, Step(cfg, c, e)) && Consistent(Step(cfg, c, e).conn)
  {
    hide ValidSchema, Fits, ErrorMessage, Dispatch, SignedKeys, SignedResumption, RL.Layer.Seal, DataMessage, Admits, Consulted;
    if e.Message? && cfg.suite.decode(e.raw).Some? && ValidSchema(cfg.suite.decode(e.raw).value) {
      var w := cfg.suite.decode(e.raw).value;
      var checked := c.(guard := Consulted(c.guard, w, e.env.purgeTime, e.env.now));
      if c.routing.None? {
        MessageFacts(cfg, e.env, checked, w);
        if c.phase != Idle {
          MessageKeeps(cfg, e.env, checked, w);
        }
        if !Ended(c.phase) && Ended(Dispatch(cfg, e.env, checked, w).conn.phase) {
          EndFacts(cfg, e.env, checked, w);
        }
      }
    }
  }

  // ---------- What a step answers ----------

  /** Why a message does not reach its handler, in the order of the tests. */
  function Objection(cfg: Config, env: Env, c: Conn, raw: bytes): Option<Failure> {
    var parsed := cfg.suite.decode(raw);
    if parsed.None? then Some(Malformed)
    else if !ValidSchema(parsed.value) then Some(SchemaViolation)
    else if Replayed(c.guard, parsed.value, env.purgeTime, env.now) then Some(ReplayRejected)
    else if c.correlationId.GetOr("") != "" && parsed.value.correlationId.GetOr("") != "" && parsed.value.correlationId != c.correlationId then
      Some(CorrelationMismatch)
    else None
  }

  /** A failure is reported to the peer exactly while the handshake has not ended and the report's frame fits. */
  predicate Reports(cfg: Config, env: Env, r: Outcome) {
    var error := Attach(HandshakeError, r.conn.correlationId.GetOr("unknown"), env.nonce, env.now).(error := Some("HANDSHAKE_FAILED"));
    r.out.failure.Some? ==>
      r.out.send == if r.conn.phase in {Idle, ServerHelloSent} && Frame(cfg.suite.encode(error), cfg.maxMessageBytes).Ok? then Some(error) else None
  }

  /** The record of this message is the next one of an open channel, and what becomes of it is what it opens to. */
  predicate TakesRecord(cfg: Config, c: Conn, w: Wire, r: Outcome)
    requires ValidSchema(w)
  {
    (r.out.accepted.Some? <==> w.kind == EncryptedData && Ended(c.phase) && c.aesKey.Some? && w.sequence.value == c.recvSequence + 1)
    && (if r.out.accepted.Some? then
          var record := RL.EncryptedRecord(w.data.value, w.iv.value, w.authTag.value, w.sequence.value);
          var found := c.layer.Open(cfg.suite.sealing, c.aesKey.value, record, w.timestamp.value, RL.Application);
          if found.Ok? then
            && r.out == SILENT.(accepted := r.out.accepted, delivered := Some(Delivery(found.value.serviceId, found.value.body)))
            && r.conn.routing == Some(Routing(found.value.serviceId, w.timestamp.value))
          else r.out.failure == Some(DecryptFailed) && r.out.delivered.None? && r.conn.routing.None?
        else r.out.delivered.None? && r.conn.routing.None?)
    && (r.out.failure == Some(SequenceReplay) ==> w.kind == EncryptedData && w.sequence.value <= c.recvSequence)
    && (r.out.failure == Some(SequenceGap) ==> w.kind == EncryptedData && w.sequence.value > c.recvSequence + 1)
  }

  /** A ping on a known channel is answered with its own number, a goodbye closes, and client messages only are expected. */
  predicate Replies(cfg: Config, env: Env, c: Conn, w: Wire, r: Outcome) {
    && (w.kind == HeartbeatPing && c.correlationId.GetOr("") == "" ==> r == Outcome(c, SILENT))
    && (w.kind == HeartbeatPing && c.correlationId.GetOr("") != "" && r.out.failure.None? ==>
          r == Outcome(c, SILENT.(send := Some(Attach(HeartbeatPong, c.correlationId.value, env.nonce, env.now).(sequence := w.sequence)))))
    && (w.kind == HeartbeatPong ==> r == Outcome(c, SILENT))
    && (w.kind == CloseNotify ==> r == Outcome(c, SILENT.(closing := true)))
    && (w.kind in {ServerHello, ServerAuthResponse, HandshakeError} ==> r.conn == c && r.out.failure == Some(UnexpectedMessage))
  }

  /** A message in a phase that does not expect it changes nothing. */
  predicate InPhase(c: Conn, w: Wire, r: Outcome) {
    || (w.kind in {ClientHello, SessionResume} && c.phase != Idle)
    || (w.kind == ClientAuthResponse && c.phase != ServerHelloSent)
    || (w.kind == EncryptedData && ((c.phase != Established && c.phase != Resumed) || c.aesKey.None?)) ==>
      r.conn == c && r.out.failure == Some(InvalidPhase)
  }

  /** What the server would write in answer to this message. */
  function Answer(cfg: Config, env: Env, c: Conn, w: Wire, after: Conn): Wire {
    match w.kind
    case ClientHello => HelloMessage(cfg, env, w.correlationId.GetOr(""))
    case SessionResume => ServerAuthMessage(cfg, env, after.correlationId.GetOr(""), w.sessionTicket.GetOr(""))
    case ClientAuthResponse =>
      ServerAuthMessage(cfg, env, after.correlationId.GetOr(""),
        Issued(cfg.suite.tickets, after.correlationId.GetOr(""), after.aesKey.GetOr([]), w.clientPublicKeySig.GetOr([]), cfg.sigKeys.publicKey,
               env.now, cfg.sessionTtlMs, env.iv))
    case _ => Attach(HeartbeatPong, c.correlationId.GetOr(""), env.nonce, env.now).(sequence := w.sequence)
  }

  /** Failures that come from the surroundings are theirs: the allowlist refuses the key, or the answer's frame is too long. */
  predicate BlamesRightly(cfg: Config, env: Env, c: Conn, w: Wire, r: Outcome) {
    && (r.out.failure == Some(AllowlistRejected) ==> w.clientPublicKeySig.Some? && !env.allowed(w.clientPublicKeySig.value))
    && (r.out.failure == Some(FrameTooLong) ==> Frame(cfg.suite.encode(Answer(cfg, env, c, w, r.conn)), cfg.maxMessageBytes).Err?)
    && (r.out.failure.Some? ==> r.out.failure.value !in {CertInvalid, SealFailed, RouteFailed, TimedOut})
  }

  /** The first hello pins the active key for its channel and is answered with both server keys and a certificate for them. */
  predicate Greets(cfg: Config, env: Env, c: Conn, w: Wire, r: Outcome) {
    w.kind == ClientHello && c.phase == Idle ==>
      && r.out.activated && r.conn.correlationId == w.correlationId && r.conn.pinnedKem == Some(env.kem)
      && (r.out.failure.None? ==>
            && r.conn.phase == ServerHelloSent
            && r.out.send == Some(Attach(ServerHello, w.correlationId.GetOr(""), env.nonce, env.now).(
                 kemPublicKey := Some(env.kem.publicKey),
                 sigPublicKey := Some(cfg.sigKeys.publicKey),
                 certificate := Some(Certificate(env.kem.publicKey, cfg.sigKeys.publicKey,
                                                 cfg.suite.certify(cfg.sigKeys.publicKey, env.kem.publicKey))))))
  }

  /** The handshake ends with the key of the ticket, or the one derived from the secret under the pinned key, and the channel set up for it. */
  predicate Completes(cfg: Config, env: Env, c: Conn, w: Wire, d: Conn) {
    !Ended(c.phase) && Ended(d.phase) ==>
      && d.aesKey.Some? && d.correlationId.Some?
      && d.layer == RL.Layer(if cfg.imperial.enabled then Some(RL.Stack(d.aesKey.value, d.correlationId.value, cfg.imperial)) else c.layer.stack,
                             d.correlationId)
      && (if d.phase == Established then
            && c.pinnedKem.Some? && w.encapsulatedKey.Some? && d.correlationId == c.correlationId
            && var secret := cfg.suite.decapsulate(c.pinnedKem.value.privateKey, w.encapsulatedKey.value);
               secret.Some? && d.aesKey.value == cfg.suite.channelKey(secret.value, d.correlationId.value)
          else
            && env.redeemed.Some? && d.aesKey.value == env.redeemed.value.aesKey && d.correlationId.value == env.redeemed.value.correlationId)
  }

  /** What a message that reaches its handler may bring about besides moving the phase. */
  predicate Answers(cfg: Config, env: Env, c: Conn, w: Wire, r: Outcome)
    requires ValidSchema(w)
  {
    Reports(cfg, env, r) && TakesRecord(cfg, c, w, r) && Replies(cfg, env, c, w, r) && InPhase(c, w, r) && BlamesRightly(cfg, env, c, w, r)
    && Greets(cfg, env, c, w, r) && Completes(cfg, env, c, w, r.conn)
  }

  lemma DispatchReports(cfg: Config, env: Env, c: Conn, w: Wire)
    requires Consistent(c) && c.routing.None? && ValidSchema(w)
    ensures Reports(cfg, env, Dispatch(cfg, env, c, w)) && Dispatch(cfg, env, c, w).conn.guard == c.guard
  {
    hide Frame, HelloMessage, ServerAuthMessage, RL.Layer.Open, RL.Layer.SetChannel, RecordIn, Issued;
  }

  lemma DispatchTakes(cfg: Config, env: Env, c: Conn, w: Wire)
    requires Consistent(c) && c.routing.None? && ValidSchema(w)
    ensures TakesRecord(cfg, c, w, Dispatch(cfg, env, c, w))
  {
    hide Fits, ErrorMessage, HelloMessage, ServerAuthMessage, RL.Layer.Open, RL.Layer.SetChannel, Issued;
  }

  lemma DispatchReplies(cfg: Config, env: Env, c: Conn, w: Wire)
    requires Consistent(c) && c.routing.None? && ValidSchema(w)
    ensures Replies(cfg, env, c, w, Dispatch(cfg, env, c, w)) && InPhase(c, w, Dispatch(cfg, env, c, w))
  {
    hide Fits, ErrorMessage, HelloMessage, ServerAuthMessage, RL.Layer.Open, RL.Layer.SetChannel, RecordIn, Issued;
  }

  lemma DispatchBlames(cfg: Config, env: Env, c: Conn, w: Wire)
    requires Consistent(c) && c.routing.None? && ValidSchema(w)
    ensures BlamesRightly(cfg, env, c, w, Dispatch(cfg, env, c, w))
  {
    hide Frame, ErrorMessage, HelloMessage, ServerAuthMessage, RL.Layer.Open, RL.Layer.SetChannel, RecordIn, Issued;
  }

  lemma DispatchGreets(cfg: Config, env: Env, c: Conn, w: Wire)
    requires Consistent(c) && c.routing.None? && ValidSchema(w)
    ensures Greets(cfg, env, c, w, Dispatch(cfg, env, c, w))
  {
    hide Fits, ErrorMessage, ServerAuthMessage, RL.Layer.Open, RL.Layer.SetChannel, RecordIn, Issued;
  }

  lemma DispatchCompletes(cfg: Config, env: Env, c: Conn, w: Wire)
    requires Consistent(c) && c.routing.None? && ValidSchema(w)
    ensures Completes(cfg, env, c, w, Dispatch(cfg, env, c, w).conn)
  {
    hide Fits, ErrorMessage, HelloMessage, ServerAuthMessage, RL.Layer.Open, RecordIn, Issued;
  }

  /** A message that does not reach its handler changes nothing but the guard; one that does is answered as its kind requires. */
  predicate MessageAnswered(cfg: Config, env: Env, c: Conn, raw: bytes, r: Outcome) {
    var objection := Objection(cfg, env, c, raw);
    if objection.Some? then
      r.conn == c.(guard := r.conn.guard) && Reports(cfg, env, r) && r.out == SILENT.(send := r.out.send, failure := objection)
    else Answers(cfg, env, c.(guard := r.conn.guard), cfg.suite.decode(raw).value, r)
  }

  lemma MessageIsAnswered(cfg: Config, env: Env, c: Conn, raw: bytes)
    requires Consistent(c) && c.routing.None?
    ensures MessageAnswered(cfg, env, c, raw, OnMessage(cfg, env, c, raw))
  {
    hide Frame, ValidSchema, Dispatch, Admits, Replayed, Consulted, TakesRecord, Replies, InPhase, BlamesRightly, Greets, Completes;
    if cfg.suite.decode(raw).Some? {
      ReplayedExactly(c.guard, cfg.suite.decode(raw).value, env.purgeTime, env.now);
    }
    if Objection(cfg, env, c, raw).None? {
      var w := cfg.suite.decode(raw).value;
      var checked := c.(guard := Consulted(c.guard, w, env.purgeTime, env.now));
      DispatchReports(cfg, env, checked, w);
      DispatchTakes(cfg, env, checked, w);
      DispatchReplies(cfg, env, checked, w);
      DispatchBlames(cfg, env, checked, w);
      DispatchGreets(cfg, env, checked, w);
      DispatchCompletes(cfg, env, checked, w);
    }
  }

  /** The message is a record of this channel that opens to this payload. */
  ghost predicate Opens(cfg: Config, w: Wire, nonce: string, c: Conn, payload: RL.RecordPayload) {
    exists record ::
      && w == DataMessage(c.correlationId.GetOr(""), nonce, payload.imperialTimestamp, record) && record.sequence == c.sendSequence
      && c.aesKey.Some?
      && c.layer.Open(cfg.suite.sealing, c.aesKey.value, record, payload.imperialTimestamp, payload.recordType) == Ok(payload)
  }

  /**
   * The router's answer goes back under the next number, as a record that opens to it for the
   * service that was asked, unless the router, the key, sealing or the frame fails.
   */
  ghost predicate RouteAnswered(cfg: Config, env: Env, c: Conn, answer: Option<bytes>, r: Outcome)
    requires c.routing.Some?
  {
    var next := c.sendSequence + 1;
    var payload := RL.RecordPayload(RL.Application, c.routing.value.serviceId, answer.GetOr([]), c.routing.value.timestamp);
    var sealed := c.layer.Seal(cfg.suite.sealing, c.aesKey.GetOr([]), payload, next, env.iv, env.noise);
    && Reports(cfg, env, r)
    && r.conn == c.(routing := None, sendSequence := if answer.Some? then next else c.sendSequence)
    && (r.out.failure == Some(RouteFailed) <==> answer.None?)
    && (r.out.failure == Some(KeyMissing) <==> answer.Some? && c.aesKey.None?)
    && (r.out.failure == Some(SealFailed) <==> answer.Some? && c.aesKey.Some? && sealed.Err?)
    && (r.out.failure == Some(FrameTooLong) ==>
          sealed.Ok? && Frame(cfg.suite.encode(DataMessage(c.correlationId.GetOr(""), env.nonce, payload.imperialTimestamp, sealed.value)),
                              cfg.maxMessageBytes).Err?)
    && (r.out.failure.Some? ==> r.out.failure.value in {RouteFailed, KeyMissing, SealFailed, FrameTooLong})
    && (r.out.failure.None? ==> r.out == SILENT.(send := r.out.send) && r.out.send.Some?)
    && (r.out.failure.None? && cfg.suite.sealing.Sound() && c.layer.HeaderFits(cfg.suite.sealing, payload, next) ==>
          Opens(cfg, r.out.send.value, env.nonce, r.conn, payload))
  }

  lemma RouteIsAnswered(cfg: Config, env: Env, c: Conn, answer: Option<bytes>)
    requires c.routing.Some?
    ensures RouteAnswered(cfg, env, c, answer, OnRouted(cfg, env, c, answer))
  {
    hide RL.Layer.Seal, RL.Layer.Open, RL.Layer.HeaderFits, RL.Sealing.Sound, Frame, DataMessage;
    var next := c.sendSequence + 1;
    if answer.Some? && c.aesKey.Some? {
      var payload := RL.RecordPayload(RL.Application, c.routing.value.serviceId, answer.value, c.routing.value.timestamp);
      var sealed := c.layer.Seal(cfg.suite.sealing, c.aesKey.value, payload, next, env.iv, env.noise);
      if sealed.Ok? {
        RL.SealKeepsSequence(c.layer, cfg.suite.sealing, c.aesKey.value, payload, next, env.iv, env.noise);
        if cfg.suite.sealing.Sound() {
          RL.OpenUndoesSeal(c.layer, cfg.suite.sealing, c.aesKey.value, payload, next, env.iv, env.noise);
        }
      }
    }
  }

  lemma {:induction false} RunConsistent(cfg: Config, events: seq<Event>)
    ensures Consistent(After(cfg, events))
    decreases |events|
  {
    hide Step, StepAllowed;
    if events != [] {
      var before := events[..|events| - 1];
      RunConsistent(cfg, before);
      StepFacts(cfg, After(cfg, before), events[|events| - 1]);
    }
  }

  /** Under arbitrary messages the accepted sequence numbers are exactly 1, 2, 3, ..., and replies never outnumber them. */
  lemma {:induction false} SequencesAreStrict(cfg: Config, events: seq<Event>)
    ensures
      var c := After(cfg, events);
      && Accepted(cfg, events) == seq(c.recvSequence, i requires i >= 0 => i + 1)
      && c.sendSequence <= c.recvSequence
    decreases |events|
  {
    hide Step, Settled, Authenticates;
    if events != [] {
      var before := events[..|events| - 1];
      SequencesAreStrict(cfg, before);
      RunConsistent(cfg, before);
      RunConsistent(cfg, events);
      StepFacts(cfg, After(cfg, before), events[|events| - 1]);
    }
  }

  /** Every step of every run moves the phase only forwards, as listed. */
  lemma {:induction false} PhasesOnlyAdvance(cfg: Config, events: seq<Event>, i: nat)
    requires i < |events|
    ensures Moves(After(cfg, events[..i]).phase, After(cfg, events[..i + 1]).phase)
  {
    hide Step, Settled, Authenticates;
    RunConsistent(cfg, events[..i]);
    assert events[..i + 1][..i] == events[..i];
    StepFacts(cfg, After(cfg, events[..i]), events[i]);
  }

  /**
   * Under arbitrary messages a connection that ended its handshake did so in some step in which
   * the client key it holds passed the allowlist and signed for the channel it holds.
   */
  lemma {:induction false} RunAuthenticated(cfg: Config, events: seq<Event>)
    ensures
      var c := After(cfg, events);
      Ended(c.phase) ==>
        && c.clientKey.Some? && c.correlationId.Some?
        && exists i :: 0 <= i < |events| &&
             Authenticates(cfg, After(cfg, events[..i]), events[i], c.phase, c.clientKey.value, c.correlationId.value)
    decreases |events|
  {
    hide Step, Authenticates;
    if events != [] {
      var n := |events| - 1;
      var before := events[..n];
      RunAuthenticated(cfg, before);
      RunConsistent(cfg, before);
      var b, c := After(cfg, before), After(cfg, events);
      StepFacts(cfg, b, events[n]);
      if Ended(b.phase) {
        var i :| 0 <= i < n && Authenticates(cfg, After(cfg, before[..i]), before[i], b.phase, b.clientKey.value, b.correlationId.value);
        assert before[..i] == events[..i] && before[i] == events[i];
      }
    }
  }
}
