/** The client's side of the handshake and of the record exchange. */
module ClientConnection {
  import opened Wrappers
  import opened Bytes
  import opened Framing
  import opened Protocol
  import RG = ReplayGuard
  import RL = RecordLayer
  import Chaos
  import ImperialStack

  datatype Phase = Unconnected | ClientHelloSent | ClientAuthSent | Established | Resumed

  datatype Config = Config(suite: Suite, imperial: ImperialStack.Config, maxMessageBytes: nat, protocolVersion: int)

  datatype Client = Client(
    phase: Phase,
    correlationId: string,
    sigKeys: KeyPair,
    kemPublicKey: bytes,
    aesKey: Option<bytes>,
    serverSigPublicKey: Option<bytes>,
    sessionTicket: Option<string>,
    sendSequence: nat,
    recvSequence: nat,
    guard: seq<RG.Entry>,
    layer: RL.Layer,
    handshakeComplete: bool)

  function Fresh(correlationId: string, sigKeys: KeyPair, kemPublicKey: bytes): Client {
    Client(Unconnected, correlationId, sigKeys, kemPublicKey, None, None, None, 0, 0, [], RL.Layer(None, None), false)
  }

  /** What one step sees of its surroundings: two clock readings, certificate validity, randomness. */
  datatype Env = Env(purgeTime: int, now: int, certValid: bool, coin: nat, nonce: string, iv: bytes, noise: Chaos.Noise)

  datatype Outcome = Outcome(client: Client, out: Output)

  predicate Ended(phase: Phase) {
    phase == Established || phase == Resumed
  }

  // ---------- Specification ----------

  /** Failing ends the socket and tells the peer nothing. */
  function Fail(c: Client, why: Failure): Outcome {
    Outcome(c, SILENT.(failure := Some(why)))
  }

  /** The message if its frame can be written; otherwise the write throws. */
  function Written(cfg: Config, after: Client, unsent: Client, w: Wire): Outcome {
    if Fits(cfg.suite, cfg.maxMessageBytes, w) then Outcome(after, SILENT.(send := Some(w))) else Fail(unsent, FrameTooLong)
  }

  function Connected(cfg: Config, env: Env, c: Client): Outcome {
    Written(cfg, c.(phase := ClientHelloSent), c, Attach(ClientHello, c.correlationId, env.nonce, env.now))
  }

  function OnMessage(cfg: Config, env: Env, c: Client, raw: bytes): Outcome {
    var parsed := cfg.suite.decode(raw);
    if parsed.None? then Fail(c, Malformed)
    else if !ValidSchema(parsed.value) then Fail(c, SchemaViolation)
    else
      var w := parsed.value;
      var checked := c.(guard := Consulted(c.guard, w, env.purgeTime, env.now));
      if !Admits(c.guard, w, env.purgeTime, env.now) then Fail(checked, ReplayRejected)
      else if w.protocolVersion.Some? && w.protocolVersion.value != 0 && w.protocolVersion.value != cfg.protocolVersion then
        Fail(checked, VersionMismatch)
      else if w.kind != CloseNotify && Present(w.correlationId) && w.correlationId.value != c.correlationId then
        Fail(checked, CorrelationMismatch)
      else Dispatch(cfg, env, checked, w)
  }

  function Dispatch(cfg: Config, env: Env, c: Client, w: Wire): Outcome
    requires ValidSchema(w)
  {
    match w.kind
    case ServerHello => OnServerHello(cfg, env, c, w)
    case ServerAuthResponse => OnServerAuth(cfg, c, w)
    case EncryptedData => OnEncryptedData(cfg, c, w)
    case HeartbeatPing =>
      Written(cfg, c, c, Attach(HeartbeatPong, c.correlationId, env.nonce, env.now).(sequence := w.sequence))
    case HeartbeatPong => Outcome(c, SILENT)
    case CloseNotify => Disconnected(cfg, env, c)
    case HandshakeError => Fail(c, PeerError)
    case _ => Fail(c, UnexpectedMessage)
  }

  function AuthMessage(cfg: Config, env: Env, c: Client, encapsulated: bytes): Wire {
    var data := cfg.suite.clientAuthData(c.sigKeys.publicKey, c.kemPublicKey, c.correlationId, env.nonce, env.now);
    Attach(ClientAuthResponse, c.correlationId, env.nonce, env.now).(
      encapsulatedKey := Some(encapsulated),
      clientPublicKeySig := Some(c.sigKeys.publicKey),
      kemPublicKey := Some(c.kemPublicKey),
      signature := Some(cfg.suite.sign(c.sigKeys.privateKey, data)))
  }

  function Keyed(cfg: Config, c: Client, key: bytes): Client {
    c.(aesKey := Some(key), layer := c.layer.SetChannel(key, c.correlationId, cfg.imperial))
  }

  function OnServerHello(cfg: Config, env: Env, c: Client, w: Wire): Outcome
    requires ValidSchema(w) && w.kind == ServerHello
  {
    if c.phase != ClientHelloSent then Fail(c, InvalidPhase)
    else
      var kem, sig := w.kemPublicKey.value, w.sigPublicKey.value;
      if kem == [] || sig == [] then Fail(c, EmptyBinary)
      else
        var met := c.(serverSigPublicKey := Some(sig));
        if !(env.certValid && w.certificate.value.kemPublicKey == kem && w.certificate.value.sigPublicKey == sig) then
          Fail(met, CertInvalid)
        else
          var capsule := cfg.suite.encapsulate(kem, env.coin);
          var keyed := Keyed(cfg, met, cfg.suite.channelKey(capsule.1, c.correlationId));
          Written(cfg, keyed.(phase := ClientAuthSent), keyed, AuthMessage(cfg, env, keyed, capsule.0))
  }

  function OnServerAuth(cfg: Config, c: Client, w: Wire): Outcome
    requires ValidSchema(w) && w.kind == ServerAuthResponse
  {
    if c.phase != ClientAuthSent && c.phase != ClientHelloSent then Fail(c, InvalidPhase)
    else if w.sigPublicKey.value == [] || w.signature.value == [] then Fail(c, EmptyBinary)
    else if c.serverSigPublicKey.Some? && c.serverSigPublicKey != w.sigPublicKey then Fail(c, ServerKeyMismatch)
    else
      var data := cfg.suite.serverAuthData(w.sigPublicKey.value, c.correlationId, w.nonce.value, w.timestamp.value, w.sessionTicket);
      if !cfg.suite.verify(w.sigPublicKey.value, data, w.signature.value) then Fail(c, SignatureInvalid)
      else Authenticated(cfg, c, w)
  }

  /** The answer is the server's: its ticket is kept, and the handshake ends if the channel has its key. */
  function Authenticated(cfg: Config, c: Client, w: Wire): Outcome {
    var met := c.(serverSigPublicKey := w.sigPublicKey,
                  sessionTicket := if Present(w.sessionTicket) then w.sessionTicket else c.sessionTicket);
    if c.aesKey.None? then Fail(met, KeyMissing)
    else
      var end := if c.phase == ClientHelloSent && Present(met.sessionTicket) then Resumed else Established;
      Outcome(Keyed(cfg, met.(phase := end, handshakeComplete := true), c.aesKey.value), SILENT)
  }

  function OnEncryptedData(cfg: Config, c: Client, w: Wire): Outcome
    requires ValidSchema(w) && w.kind == EncryptedData
  {
    if !Ended(c.phase) then Fail(c, InvalidPhase)
    else if c.aesKey.None? then Fail(c, KeyMissing)
    else
      var n := w.sequence.value;
      if n != c.recvSequence + 1 then Fail(c, if n <= c.recvSequence then SequenceReplay else SequenceGap)
      else
        var received := c.(recvSequence := n);
        var record := c.layer.Open(cfg.suite.sealing, c.aesKey.value, RecordIn(w), w.timestamp.value, RL.Application);
        var r :=
          if record.Err? then Fail(received, DecryptFailed)
          else if record.value.recordType == RL.Application then
            Outcome(received, SILENT.(delivered := Some(Delivery(record.value.serviceId, record.value.body))))
          else Outcome(received, SILENT);
        r.(out := r.out.(accepted := Some(n)))
  }

  /** The sequence number is used up even when sealing or writing throws. */
  function Sent(cfg: Config, env: Env, c: Client, serviceId: string, body: bytes): Outcome {
    if !Ended(c.phase) || c.aesKey.None? then Fail(c, InvalidPhase)
    else
      var counted := c.(sendSequence := c.sendSequence + 1);
      var payload := RL.RecordPayload(RL.Application, serviceId, body, env.now);
      var sealed := c.layer.Seal(cfg.suite.sealing, c.aesKey.value, payload, counted.sendSequence, env.iv, env.noise);
      if sealed.Err? then Fail(counted, SealFailed)
      else Written(cfg, counted, counted, DataMessage(c.correlationId, env.nonce, env.now, sealed.value))
  }

  /** A finished client says goodbye if it can, and wipes its key. */
  function Disconnected(cfg: Config, env: Env, c: Client): Outcome {
    var bye := Attach(CloseNotify, c.correlationId, env.nonce, env.now);
    Outcome(OnClosed(c),
            SILENT.(send := if c.handshakeComplete && Fits(cfg.suite, cfg.maxMessageBytes, bye) then Some(bye) else None, closing := true))
  }

  function OnClosed(c: Client): Client {
    c.(aesKey := None)
  }

}
