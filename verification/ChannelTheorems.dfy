/** What every honest run guarantees: agreement, redeemable tickets, and bodies delivered once and in order. */
module ChannelTheorems {
  import opened Wrappers
  import opened Bytes
  import opened Framing
  import opened Pipes
  import opened Protocol
  import opened HonestChannel
  import opened ChannelInvariant
  import opened ChannelSteps
  import opened ChannelRecords
  import KeyRotation
  import ReplayGuard
  import SessionStore
  import RL = RecordLayer
  import S = ServerConnection
  import C = ClientConnection

  // ---------- One step ----------

  /** A message that is due tells the stage: there is nothing to handle in the others. */
  lemma ServerStep(p: Params, s: Session, env: S.Env, kemIndex: nat)
    requires p.Valid() && SessionInv(p, s) && CanAct(p, s, ServerRun(env, kemIndex))
    ensures SessionInv(p, Act(p, s, ServerRun(env, kemIndex)))
  {
    hide Params.Valid, Carries, Act, CanAct, Identity, Untouched, Keyless, ClientKeyed, ServerKeyed, ServerWaiting, Core, InOrder, LinkOk,
         Undisturbed;
    ServerTurn(p, s, env, kemIndex);
    TakenKeeps(p, s.up);
    if HelloInFlight(p, s) {
      HelloArrives(p, s, env, kemIndex);
    } else if AuthInFlight(p, s) {
      AuthArrives(p, s, env, kemIndex);
    } else {
      RecordArrives(p, s, env, kemIndex);
    }
  }

  lemma ClientStep(p: Params, s: Session, env: C.Env)
    requires p.Valid() && SessionInv(p, s) && CanAct(p, s, ClientRun(env))
    ensures SessionInv(p, Act(p, s, ClientRun(env)))
  {
    hide Params.Valid, Carries, Act, CanAct, Identity, Untouched, Keyless, ClientKeyed, ServerKeyed, ServerWaiting, Core, InOrder, LinkOk,
         Undisturbed;
    ClientTurn(p, s, env);
    TakenKeeps(p, s.down);
    CoreTaken(s.down);
    if s.down.pending[0].kind == HandshakeError {
      ErrorArrives(p, s, env);
    } else if HelloAnswered(p, s) {
      AnswerArrives(p, s, env);
    } else if AuthAnswered(p, s) {
      TicketArrives(p, s, env);
    } else {
      ReplyArrives(p, s, env);
    }
  }

  /** A finished client, and a server that awaits its router, are on an open channel. */
  lemma OpenChannel(p: Params, s: Session)
    requires SessionInv(p, s) && (C.Ended(s.client.phase) || s.conn.routing.Some?)
    ensures Running(p, s)
  {
    hide Identity, LinkOk, Core, InOrder, Undisturbed;
  }

  lemma Unconnected(p: Params, s: Session)
    requires SessionInv(p, s) && s.client.phase == C.Unconnected
    ensures AtStart(p, s)
  {
    hide Identity, LinkOk, Core, InOrder, Undisturbed;
  }

  /** Every step of a session, at either end or in between, keeps the invariant. */
  lemma ActKeepsInv(p: Params, s: Session, a: Action)
    requires p.Valid() && SessionInv(p, s)
    ensures SessionInv(p, Act(p, s, a))
  {
    hide Params.Valid, SessionInv, Act, CanAct;
    if CanAct(p, s, a) {
      match a
      case Connect(env) =>
        assert s.client.phase == C.Unconnected by { Preconditions(p, s, a); }
        Unconnected(p, s);
        Connects(p, s, env);
      case UpArrive(_) => Arrives(p, s, a);
      case DownArrive(_) => Arrives(p, s, a);
      case ServerRun(env, kemIndex) => ServerStep(p, s, env, kemIndex);
      case Settle(env, answer) =>
        Preconditions(p, s, a);
        OpenChannel(p, s);
        RouteSettles(p, s, env, answer);
      case ServerTimeout(env) => TimesOut(p, s, env);
      case ServerClose => ServerCloses(p, s);
      case ClientRun(env) => ClientStep(p, s, env);
      case ClientSend(env, serviceId, body) =>
        Preconditions(p, s, a);
        OpenChannel(p, s);
        BodySent(p, s, env, serviceId, body);
      case ClientClose(env) => ClientCloses(p, s, env);
    } else {
      assert Act(p, s, a) == s by { Impossible(p, s, a); }
    }
  }

  lemma Preconditions(p: Params, s: Session, a: Action)
    requires CanAct(p, s, a)
    ensures a.Connect? ==> s.client.phase == C.Unconnected
    ensures a.Settle? ==> s.conn.routing.Some?
    ensures a.ClientSend? ==> C.Ended(s.client.phase)
  {
  }

  lemma Impossible(p: Params, s: Session, a: Action)
    requires !CanAct(p, s, a)
    ensures Act(p, s, a) == s
  {
    hide CanAct;
  }

  lemma NewSessionInv(p: Params, correlationId: string, sigIndex: nat, kemPublicKey: bytes)
    requires p.Valid() && correlationId != "" && kemPublicKey != []
    ensures SessionInv(p, NewSession(p, correlationId, sigIndex, kemPublicKey))
  {
    hide Carries, Params.Valid, HelloInFlight, HelloAnswered, AuthInFlight, AuthAnswered, Running, Stalled;
    var s := NewSession(p, correlationId, sigIndex, kemPublicKey);
    EmptyCarries(p.Max());
    assert Encoded(p, []) == [];
    assert AtStart(p, s) by { NewSessionStarts(p, correlationId, sigIndex, kemPublicKey); }
    hide Core, AtStart;
  }

  lemma NewSessionStarts(p: Params, correlationId: string, sigIndex: nat, kemPublicKey: bytes)
    ensures AtStart(p, NewSession(p, correlationId, sigIndex, kemPublicKey))
  {
  }

  // ---------- Every run ----------

  ghost predicate SystemInv(p: Params, sys: System) {
    && KeyRotation.FromGenerator(p.Suite().kemPair, sys.rotation)
    && forall k :: 0 <= k < |sys.sessions| ==> SessionInv(p, sys.sessions[k])
  }

  lemma NextKeepsInv(p: Params, sys: System, step: Step)
    requires p.Valid() && SystemInv(p, sys)
    ensures SystemInv(p, Next(p, sys, step))
  {
    hide Params.Valid, SessionInv, Act, CanAct, NewSession, SessionStore.After, ServerHandles;
    if Enabled(p, sys, step) {
      match step
      case Open(correlationId, sigIndex, kemPublicKey) => NewSessionInv(p, correlationId, sigIndex, kemPublicKey);
      case Rotate(_) =>
      case Redeem(_) =>
      case In(k, action) => ActKeepsInv(p, sys.sessions[k], action);
    }
  }

  /** Every session of every honest run satisfies its invariant, whatever is interleaved with it. */
  lemma {:induction false} RunKeepsInv(p: Params, start: int, steps: seq<Step>)
    requires p.Valid()
    ensures SystemInv(p, End(p, start, steps))
    decreases |steps|
  {
    hide Params.Valid, SessionInv, Next, Enabled;
    if steps != [] {
      RunKeepsInv(p, start, steps[..|steps| - 1]);
      NextKeepsInv(p, End(p, start, steps[..|steps| - 1]), steps[|steps| - 1]);
    }
  }

  // ---------- Agreement ----------

  /**
   * A client that has finished and its server agree on the channel, whatever rotations
   * and other connections came in between: the correlation id, the peer's signing key, the
   * cipher stack, and at any end that still holds a channel key the one derived from
   * the secret that the client encapsulated to the pinned key.
   */
  lemma Agreement(p: Params, start: int, steps: seq<Step>, k: nat)
    requires p.Valid() && k < |End(p, start, steps).sessions|
    requires C.Ended(End(p, start, steps).sessions[k].client.phase)
    ensures
      var s := End(p, start, steps).sessions[k];
      && S.Ended(s.conn.phase)
      && s.conn.correlationId == Some(s.client.correlationId)
      && s.conn.clientKey == Some(s.client.sigKeys.publicKey)
      && s.client.serverSigPublicKey == Some(p.server.sigKeys.publicKey)
      && var u, channel := p.Suite(), s.client.correlationId;
      var key := u.channelKey(u.encapsulate(u.kemPair(s.terms.kem).publicKey, s.terms.coin).1, channel);
      && s.client.aesKey in {Some(key), None} && s.conn.aesKey in {Some(key), None}
      && (s.log.clean ==> s.client.aesKey == s.conn.aesKey == Some(key))
      && s.client.layer == s.conn.layer ==
           RL.Layer(if p.server.imperial.enabled then Some(RL.Stack(key, channel, p.server.imperial)) else None, Some(channel))
  {
    hide Params.Valid, End;
    RunKeepsInv(p, start, steps);
    OpenChannel(p, End(p, start, steps).sessions[k]);
  }

  // ---------- Tickets ----------

  /**
   * The ticket a finished client holds redeems to this channel, its key and this client
   * exactly while it is not remembered as consumed and no more than the configured
   * lifetime has passed since the server issued it.
   */
  lemma TicketRedeems(p: Params, start: int, steps: seq<Step>, k: nat, now: int, consume: bool)
    requires p.Valid() && k < |End(p, start, steps).sessions|
    requires C.Ended(End(p, start, steps).sessions[k].client.phase)
    ensures
      var sys := End(p, start, steps);
      var s := sys.sessions[k];
      && s.client.sessionTicket.Some?
      && var ticket := s.client.sessionTicket.value;
      var found := SessionStore.Redeemed(p.Suite().tickets, sys.consumed, SessionStore.Attempt(ticket, now, consume));
      && (found.Some? <==> ticket !in sys.consumed && now <= s.terms.issuedAt + p.server.sessionTtlMs)
      && (found.Some? ==>
            && found.value.clientSigPublicKey == s.client.sigKeys.publicKey && found.value.correlationId == s.client.correlationId
            && (s.client.aesKey.Some? ==> s.client.aesKey == Some(found.value.aesKey))
            && (s.conn.aesKey.Some? ==> s.conn.aesKey == Some(found.value.aesKey)))
  {
    hide Params.Valid, End;
    RunKeepsInv(p, start, steps);
    OpenChannel(p, End(p, start, steps).sessions[k]);
  }

  /** The tests a resumption with this session's ticket must pass, in the server's order. */
  predicate MayResume(p: Params, consumed: seq<string>, s: Session, env: S.Env, w: Wire)
    requires ValidSchema(w) && w.kind == SessionResume && w.signature.Some?
  {
    && (Guarded(w) ==> ReplayGuard.InSkew(ReplayGuard.DEFAULTS, CallOf(w, env.purgeTime, env.now)))
    && PassesTests(p, consumed, s, env, w)
  }

  predicate PassesTests(p: Params, consumed: seq<string>, s: Session, env: S.Env, w: Wire)
    requires ValidSchema(w) && w.kind == SessionResume && w.signature.Some?
  {
    && w.sessionTicket.value !in consumed
    && env.now <= s.terms.issuedAt + p.server.sessionTtlMs
    && w.clientPublicKeySig == Some(s.client.sigKeys.publicKey) && env.allowed(s.client.sigKeys.publicKey)
    && w.signature.value != [] && S.SignedResumption(p.server, w, s.client.sigKeys.publicKey, s.client.correlationId)
    && Fits(p.Suite(), p.Max(), S.ServerAuthMessage(p.server, env, s.client.correlationId, w.sessionTicket.value))
  }

  /** A resume message, with what the ticket store answers to it. */
  predicate IsResume(p: Params, sys: System, s: Session, env: S.Env, w: Wire) {
    && ValidSchema(w) && w.kind == SessionResume && w.signature.Some? && w.clientPublicKeySig.Some?
    && w.sessionTicket == s.client.sessionTicket
    && env.redeemed == SessionStore.Redeemed(p.Suite().tickets, sys.consumed, SessionStore.Attempt(w.sessionTicket.value, env.now, true))
  }

  /** The connection is back on the channel of this session. */
  predicate Resumes(c: S.Conn, s: Session) {
    && c.phase == S.Resumed && c.aesKey.Some? && (s.client.aesKey.Some? ==> c.aesKey == s.client.aesKey)
    && c.layer == s.client.layer
    && c.correlationId == Some(s.client.correlationId) && c.clientKey == Some(s.client.sigKeys.publicKey)
  }

  /**
   * A resume message with a finished client's ticket resumes on a fresh connection exactly
   * when it passes those tests, and then to the same key, channel and client.
   */
  lemma TicketResumes(p: Params, start: int, steps: seq<Step>, k: nat, env: S.Env, w: Wire)
    requires p.Valid() && k < |End(p, start, steps).sessions|
    requires C.Ended(End(p, start, steps).sessions[k].client.phase)
    requires IsResume(p, End(p, start, steps), End(p, start, steps).sessions[k], env, w)
    ensures
      var sys := End(p, start, steps);
      var s := sys.sessions[k];
      var c := S.OnMessage(p.server, env, S.FRESH, p.Suite().encode(w)).conn;
      && (MayResume(p, sys.consumed, s, env, w) ==> Resumes(c, s))
      && (!MayResume(p, sys.consumed, s, env, w) ==> c.phase == S.Idle)
  {
    hide Params.Valid, End, S.OnMessage, SessionInv, IsResume, Running, MayResume, Resumes;
    RunKeepsInv(p, start, steps);
    var sys := End(p, start, steps);
    var s := sys.sessions[k];
    OpenChannel(p, s);
    ResumesOn(p, sys, s, env, w);
  }

  lemma ResumesOn(p: Params, sys: System, s: Session, env: S.Env, w: Wire)
    requires p.Valid() && SessionInv(p, s) && Running(p, s) && IsResume(p, sys, s, env, w)
    ensures
      var c := S.OnMessage(p.server, env, S.FRESH, p.Suite().encode(w)).conn;
      && (MayResume(p, sys.consumed, s, env, w) ==> Resumes(c, s))
      && (!MayResume(p, sys.consumed, s, env, w) ==> c.phase == S.Idle)
  {
    hide Params.Valid, S.OnMessage, S.ResumeWith, PassesTests, Resumes, Guarded, ReplayGuard.InSkew, Stage, Running, LinkOk, Identity, ValidSchema;
    ResumeDispatched(p, env, w);
    ResumeOutcome(p, sys, s, env, w, Consulted([], w, env.purgeTime, env.now));
  }

  lemma ResumeDispatched(p: Params, env: S.Env, w: Wire)
    requires p.Valid() && ValidSchema(w) && w.kind == SessionResume && w.signature.Some? && w.clientPublicKeySig.Some?
    ensures
      var c := S.FRESH.(guard := Consulted([], w, env.purgeTime, env.now));
      S.OnMessage(p.server, env, S.FRESH, p.Suite().encode(w)).conn ==
        if Guarded(w) && !ReplayGuard.InSkew(ReplayGuard.DEFAULTS, CallOf(w, env.purgeTime, env.now)) then c
        else S.ResumeWith(p.server, env, c, w).conn
  {
    hide S.ResumeWith, ValidSchema, ReplayGuard.InSkew;
    assert p.Suite().decode(p.Suite().encode(w)) == Some(w);
    assert ReplayGuard.Purged([], env.purgeTime) == [];
  }

  lemma ResumeOutcome(p: Params, sys: System, s: Session, env: S.Env, w: Wire, guard: seq<ReplayGuard.Entry>)
    requires p.Valid() && Identity(p, s.terms, s.client) && Running(p, s) && IsResume(p, sys, s, env, w)
    ensures
      var c := S.ResumeWith(p.server, env, S.FRESH.(guard := guard), w).conn;
      && (PassesTests(p, sys.consumed, s, env, w) ==> Resumes(c, s))
      && (!PassesTests(p, sys.consumed, s, env, w) ==> c.phase == S.Idle)
  {
    assert w.nonce.Some? && w.timestamp.Some? && w.sessionTicket.Some?;
    hide ServerKeyed, InOrder, ValidSchema, S.ServerAuthMessage, Fits, Key;
    assert p.Suite().sigPair(s.terms.sigIndex).publicKey != [];
  }

  // ---------- Delivery ----------

  /**
   * What disturbs a session at one step of its server: a failure of policy, size, sealing, router or timer,
   * a message under a nonce used before, or what the step's own condition says. Nothing else does.
   */
  lemma DisturbedExactly(p: Params, s: Session, r: S.Outcome, fine: bool)
    ensures
      var outside := {AllowlistRejected, CertInvalid, FrameTooLong, SealFailed, RouteFailed, TimedOut};
      ServerDid(p, s, r, fine).log.clean <==>
        && s.log.clean && fine
        && (r.out.failure.Some? ==> r.out.failure.value !in outside)
        && (r.out.send.Some? ==> r.out.send.value.nonce.GetOr("") !in s.down.nonces)
  {
    hide Put;
  }

  /** The same at one step of its client. */
  lemma DisturbedByClientExactly(p: Params, s: Session, r: C.Outcome, fine: bool)
    ensures
      var outside := {AllowlistRejected, CertInvalid, FrameTooLong, SealFailed, RouteFailed, TimedOut};
      ClientDid(p, s, r, fine).log.clean <==>
        && s.log.clean && fine
        && (r.out.failure.Some? ==> r.out.failure.value !in outside)
        && (r.out.send.Some? ==> r.out.send.value.nonce.GetOr("") !in s.up.nonces)
  {
    hide Put;
  }

  /**
   * As long as nothing from outside goes wrong, for any chunking of both streams: nothing
   * fails at either end, no guard refuses a message, the router has run on the first
   * bodies the client sent and the client's handler on the first replies, in order
   * and once each, and the sequence counters count them.
   */
  lemma DeliveredInOrder(p: Params, start: int, steps: seq<Step>, k: nat)
    requires p.Valid() && k < |End(p, start, steps).sessions|
    requires End(p, start, steps).sessions[k].log.clean
    ensures
      var s := End(p, start, steps).sessions[k];
      && s.log.failures == []
      && s.log.routed <= s.log.sent && s.log.handled <= s.log.replied
      && |s.log.replied| + S.Busy(s.conn) == |s.log.routed|
      && (forall i :: 0 <= i < |s.log.replied| ==> s.log.replied[i].serviceId == s.log.sent[i].serviceId)
      && s.client.sendSequence == |s.log.sent| && s.conn.recvSequence == |s.log.routed|
      && s.conn.sendSequence == |s.log.replied| && s.client.recvSequence == |s.log.handled|
  {
    hide Params.Valid, End;
    RunKeepsInv(p, start, steps);
    CleanInOrder(p, End(p, start, steps).sessions[k]);
  }

  lemma CleanInOrder(p: Params, s: Session)
    requires SessionInv(p, s) && s.log.clean
    ensures s.log.failures == []
    ensures
      && s.log.routed <= s.log.sent && s.log.handled <= s.log.replied
      && |s.log.replied| + S.Busy(s.conn) == |s.log.routed|
      && (forall i :: 0 <= i < |s.log.replied| ==> s.log.replied[i].serviceId == s.log.sent[i].serviceId)
      && s.client.sendSequence == |s.log.sent| && s.conn.recvSequence == |s.log.routed|
      && s.conn.sendSequence == |s.log.replied| && s.client.recvSequence == |s.log.handled|
  {
    hide Identity, LinkOk, Core, Records, Fresh, NoErrors;
  }

  /** Nothing is on the way in either direction and no handler waits. */
  predicate Drained(s: Session) {
    && s.up.pipe.inflight == [] && s.up.pipe.queue == [] && s.down.pipe.inflight == [] && s.down.pipe.queue == []
    && s.conn.routing.None?
  }

  /** Of all stages only the last has no message under way. */
  lemma DrainedRuns(p: Params, s: Session)
    requires SessionInv(p, s) && s.log.clean && Drained(s)
    ensures s.up.pending == [] && s.down.pending == []
    ensures if s.client.phase == C.Unconnected then Untouched(s) else Running(p, s)
  {
    hide Carries, Identity, InOrder, IsServerHello, IsAuth, IsServerAuth, Fresh, NoErrors;
    AllArrived(s.up.pipe, Encoded(p, s.up.pending), p.Max());
    AllArrived(s.down.pipe, Encoded(p, s.down.pending), p.Max());
  }

  /**
   * The handshake cannot get stuck by itself: a connected client whose session nothing from
   * outside has disturbed is established at both ends, with the key, once all messages are handled.
   */
  lemma HandshakeCompletes(p: Params, start: int, steps: seq<Step>, k: nat)
    requires p.Valid() && k < |End(p, start, steps).sessions|
    requires
      var s := End(p, start, steps).sessions[k];
      s.log.clean && s.client.phase != C.Unconnected && Drained(s)
    ensures
      var s := End(p, start, steps).sessions[k];
      && s.client.phase == C.Established && s.conn.phase == S.Established
      && s.client.aesKey.Some? && s.conn.aesKey == s.client.aesKey
  {
    hide Params.Valid, End;
    RunKeepsInv(p, start, steps);
    DrainedRuns(p, End(p, start, steps).sessions[k]);
  }

  /**
   * Once both streams have drained and the router is idle, the router has run on
   * exactly the bodies sent, and the handler has received exactly one reply for each.
   */
  lemma DeliveredExactly(p: Params, start: int, steps: seq<Step>, k: nat)
    requires p.Valid() && k < |End(p, start, steps).sessions|
    requires End(p, start, steps).sessions[k].log.clean && Drained(End(p, start, steps).sessions[k])
    ensures
      var log := End(p, start, steps).sessions[k].log;
      && log.routed == log.sent && log.handled == log.replied && |log.handled| == |log.sent|
      && forall i :: 0 <= i < |log.sent| ==> log.handled[i].serviceId == log.sent[i].serviceId
  {
    hide Params.Valid, End, SessionInv;
    RunKeepsInv(p, start, steps);
    var s := End(p, start, steps).sessions[k];
    assert SessionInv(p, s);
    AllHandled(p, s);
  }

  lemma AllHandled(p: Params, s: Session)
    requires SessionInv(p, s) && s.log.clean && Drained(s)
    ensures s.log.routed == s.log.sent && s.log.handled == s.log.replied && |s.log.replied| == |s.log.sent|
    ensures forall i :: 0 <= i < |s.log.sent| ==> s.log.handled[i].serviceId == s.log.sent[i].serviceId
  {
    hide SessionInv, IsRecord;
    DrainedRuns(p, s);
  }
}
