/** The client as the object whose handlers update its fields, with its own replay guard and record layer. */
module PQCClient {
  import opened Wrappers
  import opened Bytes
  import opened Framing
  import opened Protocol
  import opened ClientConnection
  import opened ClientRuns
  import RG = ReplayGuard
  import RL = RecordLayer

  class PQCClientService {
    const cfg: Config
    const recordLayer: RL.RecordProtector
    const replayGuard: RG.ReplayGuard
    const correlationId: string
    const sigKeys: KeyPair
    const kemPublicKey: bytes
    var phase: Phase
    var aesKey: Option<bytes>
    var serverSigPublicKey: Option<bytes>
    var sessionTicket: Option<string>
    var sendSequence: nat
    var recvSequence: nat
    var handshakeComplete: bool
    var receivedBuffer: bytes
    var messageQueue: seq<bytes>

    ghost predicate Valid()
      reads this, recordLayer, replayGuard
    {
      recordLayer.Valid() && recordLayer.sealing == cfg.suite.sealing && replayGuard.options == RG.DEFAULTS
    }

    ghost function View(): Client
      reads this, recordLayer, replayGuard
    {
      Client(phase, correlationId, sigKeys, kemPublicKey, aesKey, serverSigPublicKey, sessionTicket, sendSequence, recvSequence,
             replayGuard.seenNonces, recordLayer.View(), handshakeComplete)
    }

    constructor (cfg: Config, correlationId: string, sigKeys: KeyPair, kemPublicKey: bytes)
      ensures this.cfg == cfg && Valid() && View() == Fresh(correlationId, sigKeys, kemPublicKey)
      ensures fresh(recordLayer) && fresh(replayGuard) && receivedBuffer == [] && messageQueue == []
    {
      this.cfg := cfg;
      this.correlationId := correlationId;
      this.sigKeys := sigKeys;
      this.kemPublicKey := kemPublicKey;
      recordLayer := new RL.RecordProtector(cfg.suite.sealing);
      replayGuard := new RG.ReplayGuard(RG.DEFAULTS);
      phase := Unconnected;
      aesKey, serverSigPublicKey, sessionTicket := None, None, None;
      sendSequence, recvSequence, handshakeComplete := 0, 0, false;
      receivedBuffer, messageQueue := [], [];
    }

    /** Complete messages join the queue; a bad length fails and leaves the buffer as it was received. */
    method OnData(data: bytes) returns (out: Output)
      requires Valid()
      modifies this`receivedBuffer, this`messageQueue
      ensures Valid() && View() == old(View())
      ensures
        var p := Parse(old(receivedBuffer) + data, cfg.maxMessageBytes);
        && messageQueue == old(messageQueue) + p.messages
        && receivedBuffer == (if p.bad then old(receivedBuffer) + data else p.rest)
        && out == SILENT.(failure := if p.bad then Some(Malformed) else None)
    {
      receivedBuffer := receivedBuffer + data;
      var messages, rest := ParseMessages(receivedBuffer, cfg.maxMessageBytes);
      messageQueue := messageQueue + messages;
      out := SILENT;
      if rest.Err? {
        out := Failing(Malformed);
      } else {
        receivedBuffer := rest.value;
      }
    }

    /** A failing client tells its peer nothing. */
    method Failing(why: Failure) returns (out: Output)
      ensures out == SILENT.(failure := Some(why))
    {
      out := SILENT.(failure := Some(why));
    }

    /**
     * Handles the next queued message. The phase moves only as allowed; a channel key is taken
     * only from a hello whose certificate names both server keys, the end of the
     * handshake only from an answer signed under the server's key; an accepted
     * record is the next one.
     */
    method RunNext(env: Env) returns (out: Output)
      requires Valid()
      modifies this, recordLayer, replayGuard
      ensures Valid() && receivedBuffer == old(receivedBuffer)
      ensures old(messageQueue) == [] ==> View() == old(View()) && messageQueue == [] && out == SILENT
      ensures old(messageQueue) != [] ==>
        var raw := old(messageQueue)[0];
        && messageQueue == old(messageQueue)[1..]
        && Outcome(View(), out) == OnMessage(cfg, env, old(View()), raw)
        && StepAllowed(cfg, old(View()), Message(env, raw), Outcome(View(), out))
        && MessageAnswered(cfg, env, old(View()), raw, Outcome(View(), out))
        && replayGuard.seenNonces == Recalled(cfg.suite, old(replayGuard.seenNonces), raw, env.purgeTime, env.now)
    {
      hide StepAllowed, MessageAnswered, OnMessage;
      if messageQueue == [] {
        return SILENT;
      }
      var raw := messageQueue[0];
      messageQueue := messageQueue[1..];
      StepFacts(cfg, View(), Message(env, raw));
      MessageIsAnswered(cfg, env, View(), raw);
      out := ProcessMessage(env, raw);
    }

    method ProcessMessage(env: Env, raw: bytes) returns (out: Output)
      requires Valid()
      modifies this, recordLayer, replayGuard
      ensures Valid() && receivedBuffer == old(receivedBuffer) && messageQueue == old(messageQueue)
      ensures Outcome(View(), out) == OnMessage(cfg, env, old(View()), raw)
      ensures replayGuard.seenNonces == Recalled(cfg.suite, old(replayGuard.seenNonces), raw, env.purgeTime, env.now)
    {
      hide ValidSchema, Dispatch, RG.Accepts, RG.After;
      var parsed := cfg.suite.decode(raw);
      if parsed.None? {
        out := Failing(Malformed);
        return;
      }
      var w := parsed.value;
      if !ValidSchema(w) {
        out := Failing(SchemaViolation);
        return;
      }
      if Guarded(w) {
        var verdict := replayGuard.Validate(CallOf(w, env.purgeTime, env.now));
        if verdict != RG.Accepted {
          out := Failing(ReplayRejected);
          return;
        }
      }
      if w.protocolVersion.Some? && w.protocolVersion.value != 0 && w.protocolVersion.value != cfg.protocolVersion {
        out := Failing(VersionMismatch);
        return;
      }
      if w.kind != CloseNotify && Present(w.correlationId) && w.correlationId.value != correlationId {
        out := Failing(CorrelationMismatch);
        return;
      }
      out := Handle(env, w);
    }

    method Handle(env: Env, w: Wire) returns (out: Output)
      requires Valid() && ValidSchema(w)
      modifies this, recordLayer
      ensures Valid() && receivedBuffer == old(receivedBuffer) && messageQueue == old(messageQueue)
      ensures Outcome(View(), out) == Dispatch(cfg, env, old(View()), w)
    {
      hide OnServerHello, OnServerAuth, OnEncryptedData, ValidSchema;
      match w.kind {
        case ServerHello => out := HandleServerHello(env, w);
        case ServerAuthResponse => out := HandleServerAuthResponse(w);
        case EncryptedData => out := HandleEncryptedData(w);
        case HeartbeatPing =>
          out := WriteMessage(Attach(HeartbeatPong, correlationId, env.nonce, env.now).(sequence := w.sequence));
        case HeartbeatPong => out := SILENT;
        case CloseNotify => out := Disconnect(env);
        case HandshakeError => out := Failing(PeerError);
        case _ => out := Failing(UnexpectedMessage);
      }
    }

    /** Frames and writes a message; a frame that is too long throws. */
    method WriteMessage(w: Wire) returns (out: Output)
      ensures out == if Fits(cfg.suite, cfg.maxMessageBytes, w) then SILENT.(send := Some(w)) else SILENT.(failure := Some(FrameTooLong))
    {
      var frame := FrameMessage(cfg.suite.encode(w), cfg.maxMessageBytes);
      if frame.Err? {
        out := Failing(FrameTooLong);
        return;
      }
      out := SILENT.(send := Some(w));
    }

    /** Connects: the hello is written and only then the phase moves. */
    method SendClientHello(env: Env) returns (out: Output)
      requires Valid()
      modifies this`phase
      ensures Valid() && Outcome(View(), out) == Connected(cfg, env, old(View()))
      ensures phase == if out.send.Some? then ClientHelloSent else old(phase)
      ensures
        var hello := Attach(ClientHello, correlationId, env.nonce, env.now);
        out == if Frame(cfg.suite.encode(hello), cfg.maxMessageBytes).Ok? then SILENT.(send := Some(hello))
               else SILENT.(failure := Some(FrameTooLong))
      ensures old(phase) == Unconnected ==> StepAllowed(cfg, old(View()), Connecting(env), Outcome(View(), out))
    {
      StepFacts(cfg, View(), Connecting(env));
      hide StepAllowed;
      out := WriteMessage(Attach(ClientHello, correlationId, env.nonce, env.now));
      if out.send.Some? {
        phase := ClientHelloSent;
      }
    }

    method HandleServerHello(env: Env, w: Wire) returns (out: Output)
      requires Valid() && ValidSchema(w) && w.kind == ServerHello
      modifies this, recordLayer
      ensures Valid() && receivedBuffer == old(receivedBuffer) && messageQueue == old(messageQueue)
      ensures Outcome(View(), out) == OnServerHello(cfg, env, old(View()), w)
    {
      if phase != ClientHelloSent {
        out := Failing(InvalidPhase);
        return;
      }
      var kem, sig := w.kemPublicKey.value, w.sigPublicKey.value;
      if kem == [] || sig == [] {
        out := Failing(EmptyBinary);
        return;
      }
      serverSigPublicKey := Some(sig);
      if !(env.certValid && w.certificate.value.kemPublicKey == kem && w.certificate.value.sigPublicKey == sig) {
        out := Failing(CertInvalid);
        return;
      }
      var capsule := cfg.suite.encapsulate(kem, env.coin);
      var key := cfg.suite.channelKey(capsule.1, correlationId);
      aesKey := Some(key);
      recordLayer.SetImperialChannel(key, correlationId, cfg.imperial);
      var data := cfg.suite.clientAuthData(sigKeys.publicKey, kemPublicKey, correlationId, env.nonce, env.now);
      out := WriteMessage(Attach(ClientAuthResponse, correlationId, env.nonce, env.now).(
        encapsulatedKey := Some(capsule.0),
        clientPublicKeySig := Some(sigKeys.publicKey),
        kemPublicKey := Some(kemPublicKey),
        signature := Some(cfg.suite.sign(sigKeys.privateKey, data))));
      if out.send.Some? {
        phase := ClientAuthSent;
      }
    }

    method HandleServerAuthResponse(w: Wire) returns (out: Output)
      requires Valid() && ValidSchema(w) && w.kind == ServerAuthResponse
      modifies this, recordLayer
      ensures Valid() && receivedBuffer == old(receivedBuffer) && messageQueue == old(messageQueue)
      ensures Outcome(View(), out) == OnServerAuth(cfg, old(View()), w)
    {
      hide RL.Layer.SetChannel;
      if phase != ClientAuthSent && phase != ClientHelloSent {
        out := Failing(InvalidPhase);
        return;
      }
      if w.sigPublicKey.value == [] || w.signature.value == [] {
        out := Failing(EmptyBinary);
        return;
      }
      if serverSigPublicKey.Some? && serverSigPublicKey != w.sigPublicKey {
        out := Failing(ServerKeyMismatch);
        return;
      }
      var data := cfg.suite.serverAuthData(w.sigPublicKey.value, correlationId, w.nonce.value, w.timestamp.value, w.sessionTicket);
      if !cfg.suite.verify(w.sigPublicKey.value, data, w.signature.value) {
        out := Failing(SignatureInvalid);
        return;
      }
      serverSigPublicKey := w.sigPublicKey;
      if Present(w.sessionTicket) {
        sessionTicket := w.sessionTicket;
      }
      var isResume := phase == ClientHelloSent && Present(sessionTicket);
      if aesKey.None? {
        out := Failing(KeyMissing);
        return;
      }
      phase := if isResume then Resumed else Established;
      handshakeComplete := true;
      recordLayer.SetImperialChannel(aesKey.value, correlationId, cfg.imperial);
      out := SILENT;
    }

    method HandleEncryptedData(w: Wire) returns (out: Output)
      requires Valid() && ValidSchema(w) && w.kind == EncryptedData
      modifies this`recvSequence
      ensures Valid() && Outcome(View(), out) == OnEncryptedData(cfg, old(View()), w)
    {
      hide RL.Layer.Open;
      if phase != Established && phase != Resumed {
        out := Failing(InvalidPhase);
        return;
      }
      if aesKey.None? {
        out := Failing(KeyMissing);
        return;
      }
      var n := w.sequence.value;
      if n != recvSequence + 1 {
        out := Failing(if n <= recvSequence then SequenceReplay else SequenceGap);
        return;
      }
      recvSequence := n;
      var record := recordLayer.Open(aesKey.value, RecordIn(w), w.timestamp.value, RL.Application);
      out := SILENT;
      if record.Err? {
        out := Failing(DecryptFailed);
      } else if record.value.recordType == RL.Application {
        out := SILENT.(delivered := Some(Delivery(record.value.serviceId, record.value.body)));
      }
      out := out.(accepted := Some(n));
    }

    /**
     * Sends a body as the next record. The number is used up even when sealing or writing
     * throws; a written record opens to the body at an endpoint with the same channel.
     */
    method SendRaw(env: Env, serviceId: string, body: bytes) returns (out: Output)
      requires Valid()
      modifies this`sendSequence
      ensures Valid() && Outcome(View(), out) == Sent(cfg, env, old(View()), serviceId, body)
      ensures BodyAnswered(cfg, env, old(View()), serviceId, body, Outcome(View(), out))
    {
      hide RL.Layer.Seal, RL.Layer.Open, RL.Layer.HeaderFits, RL.Sealing.Sound, BodyAnswered;
      BodyIsAnswered(cfg, env, View(), serviceId, body);
      if (phase != Established && phase != Resumed) || aesKey.None? {
        out := Failing(InvalidPhase);
        return;
      }
      sendSequence := sendSequence + 1;
      var payload := RL.RecordPayload(RL.Application, serviceId, body, env.now);
      var sealed := recordLayer.Seal(aesKey.value, payload, sendSequence, env.iv, env.noise);
      if sealed.Err? {
        out := Failing(SealFailed);
        return;
      }
      out := WriteMessage(DataMessage(correlationId, env.nonce, env.now, sealed.value));
    }

    /** Says goodbye after a finished handshake, and wipes the key. */
    method Disconnect(env: Env) returns (out: Output)
      requires Valid()
      modifies this`aesKey
      ensures Valid() && Outcome(View(), out) == Disconnected(cfg, env, old(View()))
      ensures aesKey.None? && (out.send.Some? ==> handshakeComplete && out.send.value.kind == CloseNotify)
    {
      out := SILENT;
      if handshakeComplete {
        var bye := WriteMessage(Attach(CloseNotify, correlationId, env.nonce, env.now));
        out := SILENT.(send := bye.send);
      }
      aesKey := None;
      out := out.(closing := true);
    }
  }
}
