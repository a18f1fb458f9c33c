/**
 * The server connection as the object whose handlers update its fields, with
 * its own replay guard and record layer and the server's key rotation and ticket store.
 */
module PQCServer {
  import opened Wrappers
  import opened Bytes
  import opened Framing
  import opened Protocol
  import opened ServerConnection
  import Chaos
  import KR = KeyRotation
  import RG = ReplayGuard
  import RL = RecordLayer
  import SS = SessionStore

  /** What one handler draws from outside the objects: two clock readings and randomness. */
  datatype Turn = Turn(purgeTime: int, now: int, nonce: string, iv: bytes, noise: Chaos.Noise)

  class PQCConnection {
    const cfg: Config
    const allowed: bytes -> bool
    const kemRotation: KR.KeyRotationManager
    const sessionStore: SS.SessionStore
    const recordLayer: RL.RecordProtector
    const replayGuard: RG.ReplayGuard
    var phase: Phase
    var correlationId: Option<string>
    var aesKey: Option<bytes>
    var pinnedKem: Option<KeyPair>
    var clientSigPublicKey: Option<bytes>
    var sendSequence: nat
    var recvSequence: nat
    var routing: Option<Routing>
    var receivedBuffer: bytes
    var messageQueue: seq<bytes>

    /** The parts fit together. */
    ghost predicate Linked()
      reads this, recordLayer, replayGuard, sessionStore
    {
      && recordLayer.Valid() && recordLayer.sealing == cfg.suite.sealing
      && replayGuard.options == RG.DEFAULTS && sessionStore.codec == cfg.suite.tickets
    }

    /** What holds between any two handlers. */
    ghost predicate Valid()
      reads this, recordLayer, replayGuard, sessionStore
    {
      Linked() && Consistent(View())
    }

    ghost function View(): Conn
      reads this, recordLayer, replayGuard
    {
      Conn(phase, correlationId, aesKey, pinnedKem, clientSigPublicKey, sendSequence, recvSequence, replayGuard.seenNonces,
           recordLayer.View(), routing)
    }

    /** The pair that a client hello would pin at this time. */
    ghost function ActiveKeys(now: int): KR.Rotation
      reads this, kemRotation
    {
      KR.Activated(kemRotation.gen, kemRotation.View(), kemRotation.rotateAfterMs, now)
    }

    /** A redemption of this ticket at this time. */
    ghost function Redemption(turn: Turn, ticket: string): SS.Attempt {
      SS.Attempt(ticket, turn.now, true)
    }

    /** What a handler sees around it, given the ticket its message carries. */
    ghost function Surroundings(turn: Turn, ticket: string): Env
      reads this, kemRotation, sessionStore
    {
      Env(turn.purgeTime, turn.now, allowed, SS.Redeemed(sessionStore.codec, sessionStore.consumedTickets, Redemption(turn, ticket)),
          ActiveKeys(turn.now).current.pair, turn.nonce, turn.iv, turn.noise)
    }

    constructor (cfg: Config, allowed: bytes -> bool, kemRotation: KR.KeyRotationManager, sessionStore: SS.SessionStore)
      requires sessionStore.codec == cfg.suite.tickets
      ensures this.cfg == cfg && this.allowed == allowed && this.kemRotation == kemRotation && this.sessionStore == sessionStore
      ensures Valid() && View() == FRESH && fresh(recordLayer) && fresh(replayGuard)
      ensures receivedBuffer == [] && messageQueue == []
    {
      this.cfg := cfg;
      this.allowed := allowed;
      this.kemRotation := kemRotation;
      this.sessionStore := sessionStore;
      recordLayer := new RL.RecordProtector(cfg.suite.sealing);
      replayGuard := new RG.ReplayGuard(RG.DEFAULTS);
      phase := Idle;
      correlationId, aesKey, pinnedKem, clientSigPublicKey := None, None, None, None;
      sendSequence, recvSequence := 0, 0;
      routing := None;
      receivedBuffer := [];
      messageQueue := [];
    }

    /** Complete messages join the queue; a bad length fails and leaves the buffer as it was received. */
    method OnData(turn: Turn, data: bytes) returns (out: Output)
      requires Valid()
      modifies this`receivedBuffer, this`messageQueue
      ensures Valid() && View() == old(View())
      ensures
        var p := Parse(old(receivedBuffer) + data, cfg.maxMessageBytes);
        && messageQueue == old(messageQueue) + p.messages
        && receivedBuffer == (if p.bad then old(receivedBuffer) + data else p.rest)
        && out.failure == (if p.bad then Some(Malformed) else None)
        && out == SILENT.(failure := out.failure, send := out.send) && (!p.bad ==> out.send.None?)
        && Reports(cfg, Surroundings(turn, ""), Outcome(View(), out))
    {
      receivedBuffer := receivedBuffer + data;
      var messages, rest := ParseMessages(receivedBuffer, cfg.maxMessageBytes);
      messageQueue := messageQueue + messages;
      out := SILENT;
      if rest.Err? {
        out := Failing(turn, Malformed, Surroundings(turn, ""));
      } else {
        receivedBuffer := rest.value;
      }
    }

    method Failing(turn: Turn, why: Failure, ghost env: Env) returns (out: Output)
      requires env.nonce == turn.nonce && env.now == turn.now
      ensures Outcome(View(), out) == Fail(cfg, env, View(), why) && Plain(out)
    {
      out := SILENT.(failure := Some(why));
      if phase != Established && phase != Resumed {
        var message := Attach(HandshakeError, correlationId.GetOr("unknown"), turn.nonce, turn.now).(error := Some("HANDSHAKE_FAILED"));
        var frame := FrameMessage(cfg.suite.encode(message), cfg.maxMessageBytes);
        if frame.Ok? {
          out := out.(send := Some(message));
        }
      }
    }

    /**
     * Handles the next queued message, unless a handler is still waiting for the router.
     * The phase moves only as allowed and only on the strength of the message; an
     * accepted record is the next one; nonces, tickets and keys go through their keepers.
     */
    method RunNext(turn: Turn) returns (out: Output)
      requires Valid()
      modifies this, recordLayer, replayGuard, kemRotation, sessionStore
      ensures Valid() && receivedBuffer == old(receivedBuffer)
      ensures old(routing).Some? || old(messageQueue) == [] ==>
        View() == old(View()) && messageQueue == old(messageQueue) && out == SILENT
      ensures kemRotation.View() == if out.activated then old(ActiveKeys(turn.now)) else old(kemRotation.View())
      ensures sessionStore.consumedTickets ==
        if out.redeemed.Some? then SS.After(sessionStore.codec, old(sessionStore.consumedTickets), Redemption(turn, out.redeemed.value))
        else old(sessionStore.consumedTickets)
      ensures old(routing).None? && old(messageQueue) != [] ==>
        var raw := old(messageQueue)[0];
        var env := old(Surroundings(turn, TicketIn(cfg, messageQueue[0])));
        && messageQueue == old(messageQueue)[1..]
        && Outcome(View(), out) == OnMessage(cfg, env, old(View()), raw)
        && StepAllowed(cfg, old(View()), Message(env, raw), Outcome(View(), out))
        && MessageAnswered(cfg, env, old(View()), raw, Outcome(View(), out))
        && replayGuard.seenNonces == Recalled(cfg.suite, old(replayGuard.seenNonces), raw, turn.purgeTime, turn.now)
    {
      hide OnClientHello, OnSessionResume, OnClientAuth, OnEncryptedData, Fail, ValidSchema, OnPing, StepAllowed, MessageAnswered, Admits, Consulted;
      if routing.Some? || messageQueue == [] {
        return SILENT;
      }
      var raw := messageQueue[0];
      ghost var env := Surroundings(turn, TicketIn(cfg, raw));
      ghost var c := View();
      StepFacts(cfg, c, Message(env, raw));
      MessageIsAnswered(cfg, env, c, raw);
      messageQueue := messageQueue[1..];
      out := ProcessMessage(turn, raw, env);
    }

    method ProcessMessage(turn: Turn, raw: bytes, ghost env: Env) returns (out: Output)
      requires Valid() && routing.None? && env == Surroundings(turn, TicketIn(cfg, raw))
      modifies this, recordLayer, replayGuard, kemRotation, sessionStore
      ensures Linked() && receivedBuffer == old(receivedBuffer) && messageQueue == old(messageQueue)
      ensures Outcome(View(), out) == OnMessage(cfg, env, old(View()), raw)
      ensures replayGuard.seenNonces == Recalled(cfg.suite, old(replayGuard.seenNonces), raw, turn.purgeTime, turn.now)
      ensures Drawn(out, turn, old(ActiveKeys(turn.now)), old(kemRotation.View()), old(sessionStore.consumedTickets))
    {
      hide Fail, ValidSchema, Dispatch, RG.Accepts, RG.After, ErrorMessage;
      var parsed := cfg.suite.decode(raw);
      if parsed.None? {
        out := Failing(turn, Malformed, env);
        return;
      }
      var w := parsed.value;
      if !ValidSchema(w) {
        out := Failing(turn, SchemaViolation, env);
        return;
      }
      if Guarded(w) {
        var verdict := replayGuard.Validate(CallOf(w, turn.purgeTime, turn.now));
        if verdict != RG.Accepted {
          out := Failing(turn, ReplayRejected, env);
          return;
        }
      }
      if Present(correlationId) && Present(w.correlationId) && w.correlationId != correlationId {
        out := Failing(turn, CorrelationMismatch, env);
        return;
      }
      out := Handle(turn, w, env);
    }

    /** Which of the server's keepers an outcome has drawn on. */
    ghost predicate Drawn(out: Output, turn: Turn, active: KR.Rotation, rotation: KR.Rotation, consumed: seq<string>)
      reads this, kemRotation, sessionStore
    {
      && kemRotation.View() == (if out.activated then active else rotation)
      && sessionStore.consumedTickets ==
           if out.redeemed.Some? then SS.After(sessionStore.codec, consumed, Redemption(turn, out.redeemed.value)) else consumed
    }

    method Handle(turn: Turn, w: Wire, ghost env: Env) returns (out: Output)
      requires Valid() && routing.None? && ValidSchema(w) && env == Surroundings(turn, w.sessionTicket.GetOr(""))
      modifies this, recordLayer, kemRotation, sessionStore
      ensures Linked() && receivedBuffer == old(receivedBuffer) && messageQueue == old(messageQueue)
      ensures Outcome(View(), out) == Dispatch(cfg, env, old(View()), w)
      ensures Drawn(out, turn, old(ActiveKeys(turn.now)), old(kemRotation.View()), old(sessionStore.consumedTickets))
    {
      hide OnClientHello, OnSessionResume, OnClientAuth, OnEncryptedData, OnPing, Fail, ValidSchema, SS.Redeemed, SS.After, KR.Activated;
      match w.kind {
        case ClientHello => out := HandleClientHello(turn, w, env);
        case SessionResume => out := HandleSessionResume(turn, w, env);
        case ClientAuthResponse => out := HandleClientAuthResponse(turn, w, env);
        case EncryptedData => out := HandleEncryptedData(turn, w, env);
        case HeartbeatPing => out := HandlePing(turn, w, env);
        case HeartbeatPong => out := SILENT;
        case CloseNotify => out := SILENT.(closing := true);
        case _ => out := Failing(turn, UnexpectedMessage, env);
      }
    }

    method HandleClientHello(turn: Turn, w: Wire, ghost env: Env) returns (out: Output)
      requires Linked() && ValidSchema(w) && w.kind == ClientHello && env == Surroundings(turn, w.sessionTicket.GetOr(""))
      modifies this`phase, this`correlationId, this`pinnedKem, kemRotation
      ensures Linked() && Outcome(View(), out) == OnClientHello(cfg, env, old(View()), w)
      ensures kemRotation.View() == if out.activated then old(ActiveKeys(turn.now)) else old(kemRotation.View())
      ensures out.redeemed.None?
    {
      hide ErrorMessage, KR.Activated, SS.Redeemed;
      if phase != Idle {
        out := Failing(turn, InvalidPhase, env);
        return;
      }
      correlationId := w.correlationId;
      var keys := kemRotation.GetActiveKeys(turn.now);
      pinnedKem := Some(keys.pair);
      var hello := Attach(ServerHello, correlationId.value, turn.nonce, turn.now).(
        kemPublicKey := Some(keys.pair.publicKey),
        sigPublicKey := Some(cfg.sigKeys.publicKey),
        certificate := Some(Certificate(keys.pair.publicKey, cfg.sigKeys.publicKey,
                                        cfg.suite.certify(cfg.sigKeys.publicKey, keys.pair.publicKey))));
      var frame := FrameMessage(cfg.suite.encode(hello), cfg.maxMessageBytes);
      if frame.Err? {
        out := Failing(turn, FrameTooLong, env);
      } else {
        phase := ServerHelloSent;
        out := SILENT.(send := Some(hello));
      }
      out := out.(activated := true);
    }

    method HandleSessionResume(turn: Turn, w: Wire, ghost env: Env) returns (out: Output)
      requires Linked() && ValidSchema(w) && w.kind == SessionResume && env == Surroundings(turn, w.sessionTicket.GetOr(""))
      modifies this, recordLayer, sessionStore
      ensures Linked() && receivedBuffer == old(receivedBuffer) && messageQueue == old(messageQueue)
      ensures Outcome(View(), out) == OnSessionResume(cfg, env, old(View()), w) && !out.activated
      ensures sessionStore.consumedTickets ==
        if out.redeemed.Some?
        then SS.After(sessionStore.codec, old(sessionStore.consumedTickets), Redemption(turn, out.redeemed.value))
        else old(sessionStore.consumedTickets)
    {
      hide Fail, ResumeWith, SS.Redeemed, SS.After, KR.Activated;
      if phase != Idle {
        out := Failing(turn, InvalidPhase, env);
        return;
      }
      if w.signature.None? || w.clientPublicKeySig.None? {
        out := Failing(turn, MissingField, env);
        return;
      }
      var payload := sessionStore.Redeem(SS.Attempt(w.sessionTicket.value, turn.now, true));
      out := ResumeSession(turn, w, payload, env);
      ResumeShape(cfg, env, old(View()), w);
      out := out.(redeemed := w.sessionTicket);
    }

    method ResumeSession(turn: Turn, w: Wire, redeemed: Option<SS.TicketPayload>, ghost env: Env) returns (out: Output)
      requires Linked() && ValidSchema(w) && w.kind == SessionResume && w.signature.Some? && w.clientPublicKeySig.Some?
      requires env.nonce == turn.nonce && env.now == turn.now && env.redeemed == redeemed && env.allowed == allowed
      modifies this, recordLayer
      ensures Linked() && receivedBuffer == old(receivedBuffer) && messageQueue == old(messageQueue)
      ensures Outcome(View(), out) == ResumeWith(cfg, env, old(View()), w)
    {
      hide Fail, Finish;
      if redeemed.None? {
        out := Failing(turn, SessionExpired, env);
        return;
      }
      var payload, key := redeemed.value, w.clientPublicKeySig.value;
      if key == [] {
        out := Failing(turn, EmptyBinary, env);
        return;
      }
      if key != payload.clientSigPublicKey {
        out := Failing(turn, ResumeKeyMismatch, env);
        return;
      }
      if !allowed(key) {
        out := Failing(turn, AllowlistRejected, env);
        return;
      }
      if w.signature.value == [] {
        out := Failing(turn, EmptyBinary, env);
        return;
      }
      var data := cfg.suite.resumeData(w.sessionTicket.value, key, payload.correlationId, w.nonce.value, w.timestamp.value);
      if !cfg.suite.verify(key, data, w.signature.value) {
        out := Failing(turn, SignatureInvalid, env);
        return;
      }
      clientSigPublicKey := Some(key);
      out := Complete(turn, payload.correlationId, payload.aesKey, w.sessionTicket.value, Resumed, env);
    }

    /** Sets up the channel and writes the signed answer. */
    method Complete(turn: Turn, channel: string, key: bytes, ticket: string, end: Phase, ghost env: Env) returns (out: Output)
      requires Linked() && env.nonce == turn.nonce && env.now == turn.now
      modifies this, recordLayer
      ensures Linked() && receivedBuffer == old(receivedBuffer) && messageQueue == old(messageQueue)
      ensures Outcome(View(), out) == Finish(cfg, env, old(View()), channel, key, ticket, end)
    {
      hide ErrorMessage, RL.Layer.SetChannel;
      correlationId := Some(channel);
      aesKey := Some(key);
      recordLayer.SetImperialChannel(key, channel, cfg.imperial);
      var data := cfg.suite.serverAuthData(cfg.sigKeys.publicKey, channel, turn.nonce, turn.now, Some(ticket));
      var auth := Attach(ServerAuthResponse, channel, turn.nonce, turn.now).(
        sigPublicKey := Some(cfg.sigKeys.publicKey),
        sessionTicket := Some(ticket),
        signature := Some(cfg.suite.sign(cfg.sigKeys.privateKey, data)));
      var frame := FrameMessage(cfg.suite.encode(auth), cfg.maxMessageBytes);
      if frame.Err? {
        out := Failing(turn, FrameTooLong, env);
        return;
      }
      phase := end;
      out := SILENT.(send := Some(auth));
    }

    method HandleClientAuthResponse(turn: Turn, w: Wire, ghost env: Env) returns (out: Output)
      requires Valid() && ValidSchema(w) && w.kind == ClientAuthResponse && env == Surroundings(turn, w.sessionTicket.GetOr(""))
      modifies this, recordLayer
      ensures Linked() && receivedBuffer == old(receivedBuffer) && messageQueue == old(messageQueue)
      ensures Outcome(View(), out) == OnClientAuth(cfg, env, old(View()), w)
      ensures !out.activated && out.redeemed.None?
    {
      hide Fail, Finish, KR.Activated, SS.Redeemed, RL.Layer.SetChannel;
      if phase != ServerHelloSent {
        out := Failing(turn, InvalidPhase, env);
        return;
      }
      var key := w.clientPublicKeySig.value;
      if key == [] {
        out := Failing(turn, EmptyBinary, env);
        return;
      }
      if !allowed(key) {
        out := Failing(turn, AllowlistRejected, env);
        return;
      }
      if w.kemPublicKey.value == [] || w.encapsulatedKey.value == [] || w.signature.value == [] {
        out := Failing(turn, EmptyBinary, env);
        return;
      }
      clientSigPublicKey := Some(key);
      var channel := correlationId.value;
      var data := cfg.suite.clientAuthData(key, w.kemPublicKey.value, channel, w.nonce.value, w.timestamp.value);
      if !cfg.suite.verify(key, data, w.signature.value) {
        out := Failing(turn, SignatureInvalid, env);
        return;
      }
      // a hello has been answered, so its key is pinned
      var sharedSecret := cfg.suite.decapsulate(pinnedKem.value.privateKey, w.encapsulatedKey.value);
      if sharedSecret.None? {
        out := Failing(turn, DecapsulationFailed, env);
        return;
      }
      var channelKey := cfg.suite.channelKey(sharedSecret.value, channel);
      var ticket := sessionStore.Issue(channel, channelKey, key, cfg.sigKeys.publicKey, turn.now, cfg.sessionTtlMs, turn.iv);
      out := Complete(turn, channel, channelKey, ticket, Established, env);
      FinishShape(cfg, env, old(View()).(clientKey := Some(key)), channel, channelKey, ticket, Established);
    }

    method HandleEncryptedData(turn: Turn, w: Wire, ghost env: Env) returns (out: Output)
      requires Linked() && ValidSchema(w) && w.kind == EncryptedData
      requires env.nonce == turn.nonce && env.now == turn.now
      modifies this`recvSequence, this`routing
      ensures Linked() && Outcome(View(), out) == OnEncryptedData(cfg, env, old(View()), w)
      ensures !out.activated && out.redeemed.None?
    {
      hide ErrorMessage, RL.Layer.Open;
      if (phase != Established && phase != Resumed) || aesKey.None? {
        out := Failing(turn, InvalidPhase, env);
        return;
      }
      var n := w.sequence.value;
      if n != recvSequence + 1 {
        out := Failing(turn, if n <= recvSequence then SequenceReplay else SequenceGap, env);
        return;
      }
      recvSequence := n;
      var record := recordLayer.Open(aesKey.value, RecordIn(w), w.timestamp.value, RL.Application);
      if record.Err? {
        out := Failing(turn, DecryptFailed, env);
      } else {
        routing := Some(Routing(record.value.serviceId, w.timestamp.value));
        out := SILENT.(delivered := Some(Delivery(record.value.serviceId, record.value.body)));
      }
      out := out.(accepted := Some(n));
    }

    method HandlePing(turn: Turn, w: Wire, ghost env: Env) returns (out: Output)
      requires Linked() && ValidSchema(w) && w.kind == HeartbeatPing
      requires env.nonce == turn.nonce && env.now == turn.now
      ensures Outcome(View(), out) == OnPing(cfg, env, View(), w)
      ensures !out.activated && out.redeemed.None?
    {
      hide ErrorMessage;
      if !Present(correlationId) {
        return SILENT;
      }
      var pong := Attach(HeartbeatPong, correlationId.value, turn.nonce, turn.now).(sequence := w.sequence);
      var frame := FrameMessage(cfg.suite.encode(pong), cfg.maxMessageBytes);
      if frame.Err? {
        out := Failing(turn, FrameTooLong, env);
        return;
      }
      out := SILENT.(send := Some(pong));
    }

    /**
     * The rest of the data handler, once the router has answered: at most one reply for the
     * record accepted before, under the next sequence number.
     */
    method RouteSettled(turn: Turn, answer: Option<bytes>) returns (out: Output)
      requires Valid() && routing.Some?
      modifies this`routing, this`sendSequence
      ensures Valid() && routing.None?
      ensures sendSequence == old(sendSequence) + (if answer.Some? then 1 else 0) && sendSequence <= recvSequence
      ensures
        var env := Surroundings(turn, "");
        && Outcome(View(), out) == OnRouted(cfg, env, old(View()), answer)
        && StepAllowed(cfg, old(View()), Routed(env, answer), Outcome(View(), out))
        && RouteAnswered(cfg, env, old(View()), answer, Outcome(View(), out))
    {
      hide Fail, RL.Layer.Seal, RL.Layer.Open, RL.Layer.HeaderFits, StepAllowed, RouteAnswered, KR.Activated, SS.Redeemed, RL.Sealing.Sound;
      ghost var env := Surroundings(turn, "");
      ghost var c := View();
      StepFacts(cfg, c, Routed(env, answer));
      RouteIsAnswered(cfg, env, c, answer);
      var pending := routing.value;
      routing := None;
      if answer.None? {
        out := Failing(turn, RouteFailed, env);
        return;
      }
      sendSequence := sendSequence + 1;
      if aesKey.None? {
        out := Failing(turn, KeyMissing, env);
        return;
      }
      var payload := RL.RecordPayload(RL.Application, pending.serviceId, answer.value, pending.timestamp);
      var sealed := recordLayer.Seal(aesKey.value, payload, sendSequence, turn.iv, turn.noise);
      if sealed.Err? {
        out := Failing(turn, SealFailed, env);
        return;
      }
      var reply := DataMessage(correlationId.GetOr(""), turn.nonce, pending.timestamp, sealed.value);
      var frame := FrameMessage(cfg.suite.encode(reply), cfg.maxMessageBytes);
      if frame.Err? {
        out := Failing(turn, FrameTooLong, env);
        return;
      }
      out := SILENT.(send := Some(reply));
    }

    /** Closing wipes the key and nothing else. */
    method Close()
      requires Valid()
      modifies this`aesKey
      ensures Valid() && View() == OnClosed(old(View())) && View() == old(View()).(aesKey := None)
    {
      aesKey := None;
    }
  }

  /** An outcome that drew on no keeper. */
  predicate Plain(out: Output) {
    !out.activated && out.redeemed.None?
  }

  lemma FailShape(cfg: Config, env: Env, c: Conn, why: Failure)
    ensures Fail(cfg, env, c, why).conn == c && Plain(Fail(cfg, env, c, why).out) && Fail(cfg, env, c, why).out.failure == Some(why)
  {
    hide ErrorMessage;
  }

  lemma FinishShape(cfg: Config, env: Env, c: Conn, channel: string, key: bytes, ticket: string, end: Phase)
    ensures Plain(Finish(cfg, env, c, channel, key, ticket, end).out)
  {
    hide ErrorMessage, ServerAuthMessage, RL.Layer.SetChannel;
  }

  lemma ResumeShape(cfg: Config, env: Env, c: Conn, w: Wire)
    requires ValidSchema(w) && w.kind == SessionResume && w.signature.Some? && w.clientPublicKeySig.Some?
    ensures Plain(ResumeWith(cfg, env, c, w).out)
  {
    hide ErrorMessage, ServerAuthMessage, RL.Layer.SetChannel;
  }

  /** The ticket that a message carries. */
  function TicketIn(cfg: Config, raw: bytes): string {
    var parsed := cfg.suite.decode(raw);
    if parsed.Some? then parsed.value.sessionTicket.GetOr("") else ""
  }
}
