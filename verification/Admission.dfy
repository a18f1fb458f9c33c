/** Connection and handshake slots: taken around awaited distributed checks, given back when a connection ends. */
module Admission {
  import L = RateLimiter

  datatype Stage = AskingConnection | AskingHandshake | Open | Over

  /**
   * One accepted socket and the local slots taken for it. A socket that goes away while
   * a check is awaited is gone unheard: nothing listens to it before its connection exists.
   */
  datatype Socket = Socket(stage: Stage, connectionHeld: bool, handshakeHeld: bool, gone: bool)

  datatype Config = Config(maxConnections: int, maxHandshakesPerMinute: int)

  datatype Server = Server(activeConnections: nat, activeHandshakes: nat, timestamps: seq<int>, sockets: seq<Socket>)

  const STARTED := Server(0, 0, [], [])

  /** Answers of the distributed limiter and events of different sockets come in any order. */
  datatype Step =
    | Arrival(serving: bool)
    | Departure(k: nat)
    | ConnectionAnswer(k: nat, granted: bool, now: int)
    | HandshakeAnswer(k: nat, granted: bool)
    | Failure(k: nat)
    | SocketError(k: nat)
    | SocketClose(k: nat)

  // ---------- Specification ----------

  function Less(n: nat): nat {
    if n == 0 then 0 else n - 1
  }

  predicate Waiting(s: Socket) {
    s.stage == AskingConnection || s.stage == AskingHandshake
  }

  /** A connection whose socket events are heard. */
  predicate Heard(s: Socket) {
    s.stage == Open && !s.gone
  }

  predicate Enabled(s: Server, step: Step) {
    match step
    case Arrival(_) => true
    case Departure(k) => k < |s.sockets| && Waiting(s.sockets[k])
    case ConnectionAnswer(k, _, _) => k < |s.sockets| && s.sockets[k].stage == AskingConnection
    case HandshakeAnswer(k, _) => k < |s.sockets| && s.sockets[k].stage == AskingHandshake
    case Failure(k) => k < |s.sockets| && Heard(s.sockets[k])
    case SocketError(k) => k < |s.sockets| && Heard(s.sockets[k])
    case SocketClose(k) => k < |s.sockets| && Heard(s.sockets[k])
  }

  function FreeHandshake(s: Server, k: nat): Server
    requires k < |s.sockets|
  {
    if s.sockets[k].handshakeHeld then
      s.(activeHandshakes := Less(s.activeHandshakes), sockets := s.sockets[k := s.sockets[k].(handshakeHeld := false)])
    else s
  }

  function FreeConnection(s: Server, k: nat): Server
    requires k < |s.sockets|
  {
    if s.sockets[k].connectionHeld then
      s.(activeConnections := Less(s.activeConnections), sockets := s.sockets[k := s.sockets[k].(connectionHeld := false)])
    else s
  }

  const TURNED_AWAY := Socket(Over, false, false, false)

  /** Refusing the distributed handshake gives back the connection slot and nothing else. */
  function Next(cfg: Config, s: Server, step: Step): Server
    requires Enabled(s, step)
  {
    match step
    case Arrival(serving) =>
      if !serving || s.activeConnections >= cfg.maxConnections then s.(sockets := s.sockets + [TURNED_AWAY])
      else s.(activeConnections := s.activeConnections + 1, sockets := s.sockets + [Socket(AskingConnection, true, false, false)])
    case Departure(k) => s.(sockets := s.sockets[k := s.sockets[k].(gone := true)])
    case ConnectionAnswer(k, granted, now) =>
      var refused := s.(activeConnections := Less(s.activeConnections), sockets := s.sockets[k := TURNED_AWAY]);
      if !granted then refused
      else
        var recent := L.Since(s.timestamps, now - L.WINDOW_MS);
        if |recent| >= cfg.maxHandshakesPerMinute then refused.(timestamps := recent)
        else s.(timestamps := recent + [now], activeHandshakes := s.activeHandshakes + 1,
                sockets := s.sockets[k := s.sockets[k].(stage := AskingHandshake, handshakeHeld := true)])
    case HandshakeAnswer(k, granted) =>
      if granted then s.(sockets := s.sockets[k := s.sockets[k].(stage := Open)])
      else s.(activeConnections := Less(s.activeConnections), sockets := s.sockets[k := TURNED_AWAY])
    case Failure(k) => FreeHandshake(s, k)
    case SocketError(k) => FreeConnection(s, k)
    case SocketClose(k) =>
      var freed := FreeConnection(FreeHandshake(s, k), k);
      freed.(sockets := freed.sockets[k := freed.sockets[k].(stage := Over)])
  }

  // ---------- Implementation ----------

  class PQCServerService {
    const cfg: Config
    const rateLimiter: L.RateLimiter
    var sockets: seq<Socket>

    ghost predicate Valid()
      reads this
    {
      rateLimiter.maxConnections == cfg.maxConnections && rateLimiter.maxHandshakesPerMinute == cfg.maxHandshakesPerMinute
    }

    ghost function View(): Server
      reads this, rateLimiter
    {
      Server(rateLimiter.activeConnections, rateLimiter.activeHandshakes, rateLimiter.handshakeTimestamps, sockets)
    }

    constructor (cfg: Config)
      ensures this.cfg == cfg && Valid() && View() == STARTED && fresh(rateLimiter)
    {
      this.cfg := cfg;
      rateLimiter := new L.RateLimiter(cfg.maxConnections, cfg.maxHandshakesPerMinute);
      sockets := [];
    }

    /** A server that is not vital or is shutting down turns the socket away before any slot is taken. */
    method AcceptConnection(vital: bool, shuttingDown: bool)
      requires Valid()
      modifies this, rateLimiter
      ensures Valid() && View() == Next(cfg, old(View()), Arrival(vital && !shuttingDown))
      ensures
        var taken := vital && !shuttingDown && old(rateLimiter.activeConnections) < cfg.maxConnections;
        && sockets == old(sockets) + [if taken then Socket(AskingConnection, true, false, false) else Socket(Over, false, false, false)]
        && rateLimiter.activeConnections == old(rateLimiter.activeConnections) + (if taken then 1 else 0)
        && rateLimiter.activeHandshakes == old(rateLimiter.activeHandshakes)
    {
      if !vital {
        sockets := sockets + [TURNED_AWAY];
        return;
      }
      if shuttingDown {
        sockets := sockets + [TURNED_AWAY];
        return;
      }
      var ok := rateLimiter.TryAcquireConnection();
      sockets := sockets + [if ok then Socket(AskingConnection, true, false, false) else TURNED_AWAY];
    }

    method OnConnectionAnswer(k: nat, granted: bool, now: int)
      requires Valid() && Enabled(View(), ConnectionAnswer(k, granted, now))
      modifies this, rateLimiter
      ensures Valid() && View() == Next(cfg, old(View()), ConnectionAnswer(k, granted, now))
      ensures !granted ==>
        && sockets == old(sockets)[k := Socket(Over, false, false, false)]
        && rateLimiter.activeHandshakes == old(rateLimiter.activeHandshakes)
        && rateLimiter.handshakeTimestamps == old(rateLimiter.handshakeTimestamps)
      ensures granted && (forall t :: t in old(rateLimiter.handshakeTimestamps) ==> t <= now) ==>
        var admitted := L.Within(old(rateLimiter.handshakeTimestamps), now - 60_000, now) < cfg.maxHandshakesPerMinute;
        && sockets == old(sockets)[k := if admitted then old(sockets)[k].(stage := AskingHandshake, handshakeHeld := true)
                                        else Socket(Over, false, false, false)]
        && rateLimiter.activeHandshakes == old(rateLimiter.activeHandshakes) + (if admitted then 1 else 0)
      ensures rateLimiter.activeConnections ==
        if sockets[k].stage == Over && old(rateLimiter.activeConnections) > 0 then old(rateLimiter.activeConnections) - 1
        else old(rateLimiter.activeConnections)
    {
      if !granted {
        rateLimiter.ReleaseConnection();
        sockets := sockets[k := TURNED_AWAY];
        return;
      }
      var ok := rateLimiter.TryAcquireHandshake(now);
      if !ok {
        rateLimiter.ReleaseConnection();
        sockets := sockets[k := TURNED_AWAY];
        return;
      }
      sockets := sockets[k := sockets[k].(stage := AskingHandshake, handshakeHeld := true)];
    }

    method OnHandshakeAnswer(k: nat, granted: bool)
      requires Valid() && Enabled(View(), HandshakeAnswer(k, granted))
      modifies this, rateLimiter
      ensures Valid() && View() == Next(cfg, old(View()), HandshakeAnswer(k, granted))
      ensures sockets == old(sockets)[k := if granted then old(sockets)[k].(stage := Open) else Socket(Over, false, false, false)]
      ensures rateLimiter.activeHandshakes == old(rateLimiter.activeHandshakes)
      ensures rateLimiter.activeConnections ==
        if !granted && old(rateLimiter.activeConnections) > 0 then old(rateLimiter.activeConnections) - 1
        else old(rateLimiter.activeConnections)
    {
      if !granted {
        rateLimiter.ReleaseConnection();
        sockets := sockets[k := TURNED_AWAY];
        return;
      }
      sockets := sockets[k := sockets[k].(stage := Open)];
    }

    method ReleaseHandshakeSlot(k: nat)
      requires Valid() && k < |sockets|
      modifies this, rateLimiter
      ensures Valid() && View() == FreeHandshake(old(View()), k)
      ensures rateLimiter.activeHandshakes ==
        if old(sockets)[k].handshakeHeld && old(rateLimiter.activeHandshakes) > 0 then old(rateLimiter.activeHandshakes) - 1
        else old(rateLimiter.activeHandshakes)
    {
      if sockets[k].handshakeHeld {
        sockets := sockets[k := sockets[k].(handshakeHeld := false)];
        rateLimiter.ReleaseHandshake();
      }
    }

    method ReleaseConnection(k: nat)
      requires Valid() && k < |sockets|
      modifies this, rateLimiter
      ensures Valid() && View() == FreeConnection(old(View()), k)
      ensures rateLimiter.activeConnections ==
        if old(sockets)[k].connectionHeld && old(rateLimiter.activeConnections) > 0 then old(rateLimiter.activeConnections) - 1
        else old(rateLimiter.activeConnections)
    {
      if sockets[k].connectionHeld {
        sockets := sockets[k := sockets[k].(connectionHeld := false)];
        rateLimiter.ReleaseConnection();
      }
    }

    /** A failing connection gives its handshake slot back, at most once, and keeps its connection slot. */
    method OnFailure(k: nat)
      requires Valid() && Enabled(View(), Failure(k))
      modifies this, rateLimiter
      ensures Valid() && View() == Next(cfg, old(View()), Failure(k))
      ensures sockets == old(sockets)[k := old(sockets)[k].(handshakeHeld := false)]
      ensures rateLimiter.activeConnections == old(rateLimiter.activeConnections)
    {
      ReleaseHandshakeSlot(k);
    }

    /** A socket error gives the connection slot back, at most once, and keeps the handshake slot. */
    method OnError(k: nat)
      requires Valid() && Enabled(View(), SocketError(k))
      modifies this, rateLimiter
      ensures Valid() && View() == Next(cfg, old(View()), SocketError(k))
      ensures sockets == old(sockets)[k := old(sockets)[k].(connectionHeld := false)]
      ensures rateLimiter.activeHandshakes == old(rateLimiter.activeHandshakes)
    {
      ReleaseConnection(k);
    }

    method OnClose(k: nat)
      requires Valid() && Enabled(View(), SocketClose(k))
      modifies this, rateLimiter
      ensures Valid() && View() == Next(cfg, old(View()), SocketClose(k))
      ensures sockets == old(sockets)[k := Socket(Over, false, false, old(sockets)[k].gone)]
    {
      ReleaseHandshakeSlot(k);
      ReleaseConnection(k);
      sockets := sockets[k := sockets[k].(stage := Over)];
    }
  }

  // ---------- Runs ----------

  /** The server after any list of steps; a step that is not enabled does not happen. */
  function End(cfg: Config, steps: seq<Step>): Server {
    if steps == [] then STARTED
    else
      var s := End(cfg, steps[..|steps| - 1]);
      if Enabled(s, steps[|steps| - 1]) then Next(cfg, s, steps[|steps| - 1]) else s
  }

  function Bit(b: bool): nat {
    if b then 1 else 0
  }

  /** The check of a socket that is already gone is granted: no event will ever end this connection. */
  predicate GrantsGone(s: Server, step: Step) {
    step.HandshakeAnswer? && step.granted && Enabled(s, step) && s.sockets[step.k].gone
  }

  /** The distributed limiter refuses a handshake that the local one had granted. */
  predicate RefusesLate(s: Server, step: Step) {
    step.HandshakeAnswer? && !step.granted && Enabled(s, step)
  }

  /** A slot that is held and will be given back, since its connection can still end. */
  function ConnectionsHeld(sockets: seq<Socket>): nat {
    if sockets == [] then 0 else ConnectionsHeld(sockets[..|sockets| - 1]) + HoldsConnection(sockets[|sockets| - 1])
  }

  function HoldsConnection(s: Socket): nat {
    Bit(s.connectionHeld && (Waiting(s) || Heard(s)))
  }

  function HandshakesHeld(sockets: seq<Socket>): nat {
    if sockets == [] then 0 else HandshakesHeld(sockets[..|sockets| - 1]) + HoldsHandshake(sockets[|sockets| - 1])
  }

  function HoldsHandshake(s: Socket): nat {
    Bit(s.handshakeHeld && (Waiting(s) || Heard(s)))
  }

  /** Connections that no event will ever end. */
  function Lost(cfg: Config, steps: seq<Step>): nat {
    if steps == [] then 0
    else Lost(cfg, steps[..|steps| - 1]) + Bit(GrantsGone(End(cfg, steps[..|steps| - 1]), steps[|steps| - 1]))
  }

  /** Handshakes that the distributed limiter refused. */
  function LateRefusals(cfg: Config, steps: seq<Step>): nat {
    if steps == [] then 0
    else LateRefusals(cfg, steps[..|steps| - 1]) + Bit(RefusesLate(End(cfg, steps[..|steps| - 1]), steps[|steps| - 1]))
  }

  /** A waiting socket holds what its stage says; one that is over holds nothing. */
  predicate Staged(s: Socket) {
    match s.stage
    case AskingConnection => s.connectionHeld && !s.handshakeHeld
    case AskingHandshake => s.connectionHeld && s.handshakeHeld
    case Open => true
    case Over => !s.connectionHeld && !s.handshakeHeld
  }

  predicate AllStaged(s: Server) {
    forall k :: 0 <= k < |s.sockets| ==> Staged(s.sockets[k])
  }

  lemma {:induction false} HeldUpdate(sockets: seq<Socket>, k: nat, t: Socket)
    requires k < |sockets|
    ensures ConnectionsHeld(sockets[k := t]) == ConnectionsHeld(sockets) - HoldsConnection(sockets[k]) + HoldsConnection(t)
    ensures HandshakesHeld(sockets[k := t]) == HandshakesHeld(sockets) - HoldsHandshake(sockets[k]) + HoldsHandshake(t)
    decreases |sockets|
  {
    var m := |sockets| - 1;
    if k == m {
      assert sockets[k := t][..m] == sockets[..m];
    } else {
      HeldUpdate(sockets[..m], k, t);
      assert sockets[k := t][..m] == sockets[..m][k := t];
    }
  }

  lemma HeldAppend(sockets: seq<Socket>, t: Socket)
    ensures ConnectionsHeld(sockets + [t]) == ConnectionsHeld(sockets) + HoldsConnection(t)
    ensures HandshakesHeld(sockets + [t]) == HandshakesHeld(sockets) + HoldsHandshake(t)
  {
    assert (sockets + [t])[..|sockets|] == sockets;
  }

  /** One step keeps both counts, except that it may lose a connection or refuse a handshake late. */
  lemma NextAccounts(cfg: Config, s: Server, step: Step)
    requires Enabled(s, step) && AllStaged(s)
    requires s.activeConnections >= ConnectionsHeld(s.sockets) && s.activeHandshakes >= HandshakesHeld(s.sockets)
    ensures
      var t := Next(cfg, s, step);
      && AllStaged(t)
      && t.activeConnections - ConnectionsHeld(t.sockets) ==
           s.activeConnections - ConnectionsHeld(s.sockets) + Bit(GrantsGone(s, step))
      && t.activeHandshakes - HandshakesHeld(t.sockets) ==
           s.activeHandshakes - HandshakesHeld(s.sockets) + Bit(GrantsGone(s, step)) + Bit(RefusesLate(s, step))
  {
    hide ConnectionsHeld, HandshakesHeld;
    var t := Next(cfg, s, step);
    if step.Arrival? {
      HeldAppend(s.sockets, t.sockets[|s.sockets|]);
    } else {
      var k := step.k;
      HeldUpdate(s.sockets, k, t.sockets[k]);
      HeldPositive(s.sockets, k);
      assert t.sockets == s.sockets[k := t.sockets[k]];
    }
  }

  lemma HeldPositive(sockets: seq<Socket>, k: nat)
    requires k < |sockets|
    ensures ConnectionsHeld(sockets) >= HoldsConnection(sockets[k]) && HandshakesHeld(sockets) >= HoldsHandshake(sockets[k])
  {
    HeldUpdate(sockets, k, TURNED_AWAY);
  }

  /** Each counter is what is held and will be given back, and what has leaked. */
  lemma {:induction false} RunAccounts(cfg: Config, steps: seq<Step>)
    ensures
      var s := End(cfg, steps);
      && AllStaged(s)
      && s.activeConnections == ConnectionsHeld(s.sockets) + Lost(cfg, steps)
      && s.activeHandshakes == HandshakesHeld(s.sockets) + Lost(cfg, steps) + LateRefusals(cfg, steps)
    decreases |steps|
  {
    hide Next, Enabled, AllStaged, RefusesLate, GrantsGone, HandshakesHeld, ConnectionsHeld;
    if steps == [] {
      NothingHeld();
    } else {
      var before, step := steps[..|steps| - 1], steps[|steps| - 1];
      RunAccounts(cfg, before);
      if Enabled(End(cfg, before), step) {
        NextAccounts(cfg, End(cfg, before), step);
      } else {
        NothingHappens(End(cfg, before), step);
      }
    }
  }

  lemma NothingHeld()
    ensures AllStaged(STARTED) && ConnectionsHeld([]) == 0 && HandshakesHeld([]) == 0
  {
  }

  lemma NothingHappens(s: Server, step: Step)
    requires !Enabled(s, step)
    ensures !GrantsGone(s, step) && !RefusesLate(s, step)
  {
  }

  /** Step i loses a connection. */
  predicate LosesAt(cfg: Config, steps: seq<Step>, i: nat)
    requires i < |steps|
  {
    GrantsGone(End(cfg, steps[..i]), steps[i])
  }

  predicate RefusesAt(cfg: Config, steps: seq<Step>, i: nat)
    requires i < |steps|
  {
    RefusesLate(End(cfg, steps[..i]), steps[i])
  }

  lemma {:induction false} LeaksCounted(cfg: Config, steps: seq<Step>)
    ensures Lost(cfg, steps) == 0 <==> forall i :: 0 <= i < |steps| ==> !LosesAt(cfg, steps, i)
    ensures LateRefusals(cfg, steps) == 0 <==> forall i :: 0 <= i < |steps| ==> !RefusesAt(cfg, steps, i)
    decreases |steps|
  {
    hide GrantsGone, RefusesLate, End;
    if steps != [] {
      var m := |steps| - 1;
      LeaksCounted(cfg, steps[..m]);
      forall i | 0 <= i < m
        ensures LosesAt(cfg, steps[..m], i) == LosesAt(cfg, steps, i) && RefusesAt(cfg, steps[..m], i) == RefusesAt(cfg, steps, i)
      {
        assert steps[..m][..i] == steps[..i] && steps[..m][i] == steps[i];
      }
      assert LosesAt(cfg, steps, m) == GrantsGone(End(cfg, steps[..m]), steps[m]);
      assert RefusesAt(cfg, steps, m) == RefusesLate(End(cfg, steps[..m]), steps[m]);
    }
  }

  /**
   * In every run the connection counter is the number of slots that will be given back
   * exactly when no check of a socket already gone was granted, and the handshake
   * counter exactly when, besides, the distributed limiter refused no handshake.
   */
  lemma SlotsConserved(cfg: Config, steps: seq<Step>)
    ensures
      var s := End(cfg, steps);
      && (s.activeConnections == ConnectionsHeld(s.sockets) <==> forall i :: 0 <= i < |steps| ==> !LosesAt(cfg, steps, i))
      && (s.activeHandshakes == HandshakesHeld(s.sockets) <==>
            forall i :: 0 <= i < |steps| ==> !LosesAt(cfg, steps, i) && !RefusesAt(cfg, steps, i))
  {
    hide LosesAt, RefusesAt;
    RunAccounts(cfg, steps);
    LeaksCounted(cfg, steps);
  }

  /** What has leaked stays taken: however a run goes on, the counters never fall below it. */
  lemma {:induction false} LeaksStay(cfg: Config, steps: seq<Step>, i: nat)
    requires i <= |steps|
    ensures End(cfg, steps).activeConnections >= Lost(cfg, steps[..i])
    ensures End(cfg, steps).activeHandshakes >= Lost(cfg, steps[..i]) + LateRefusals(cfg, steps[..i])
    decreases |steps|
  {
    hide GrantsGone, RefusesLate, End;
    RunAccounts(cfg, steps);
    LeaksGrow(cfg, steps, i);
  }

  lemma {:induction false} LeaksGrow(cfg: Config, steps: seq<Step>, i: nat)
    requires i <= |steps|
    ensures Lost(cfg, steps[..i]) <= Lost(cfg, steps) && LateRefusals(cfg, steps[..i]) <= LateRefusals(cfg, steps)
    decreases |steps|
  {
    hide GrantsGone, RefusesLate, End;
    if i == |steps| {
      assert steps[..i] == steps;
    } else {
      LeaksGrow(cfg, steps[..|steps| - 1], i);
      assert steps[..|steps| - 1][..i] == steps[..i];
    }
  }

  // ---------- Refusals ----------

  /** At step i an awaited check answers yes for socket k. */
  ghost predicate GrantedAt(steps: seq<Step>, i: nat, k: nat, connection: bool) {
    && i < |steps|
    && if connection then steps[i].ConnectionAnswer? && steps[i].k == k && steps[i].granted else steps[i] == HandshakeAnswer(k, true)
  }

  /** Both checks have been granted, in this order. */
  ghost predicate Passed(steps: seq<Step>, k: nat) {
    exists i, j :: 0 <= i < j < |steps| && GrantedAt(steps, i, k, true) && GrantedAt(steps, j, k, false)
  }

  ghost predicate HalfPassed(steps: seq<Step>, k: nat) {
    exists i :: 0 <= i < |steps| && GrantedAt(steps, i, k, true)
  }

  lemma PassedLater(steps: seq<Step>, k: nat)
    requires steps != []
    ensures HalfPassed(steps[..|steps| - 1], k) ==> HalfPassed(steps, k)
    ensures Passed(steps[..|steps| - 1], k) ==> Passed(steps, k)
    ensures GrantedAt(steps, |steps| - 1, k, true) ==> HalfPassed(steps, k)
    ensures HalfPassed(steps[..|steps| - 1], k) && GrantedAt(steps, |steps| - 1, k, false) ==> Passed(steps, k)
  {
    var before := steps[..|steps| - 1];
    assert forall i, connection :: 0 <= i < |before| ==> GrantedAt(before, i, k, connection) == GrantedAt(steps, i, k, connection);
  }

  lemma LastGrants(steps: seq<Step>, k: nat)
    requires steps != []
    ensures
      var step := steps[|steps| - 1];
      && (step.ConnectionAnswer? && step.k == k && step.granted ==> GrantedAt(steps, |steps| - 1, k, true))
      && (step == HandshakeAnswer(k, true) ==> GrantedAt(steps, |steps| - 1, k, false))
  {
  }

  /** A handshake slot is held only after the first check was granted, and a connection is open only after both were. */
  lemma {:induction false} OpenWasGranted(cfg: Config, steps: seq<Step>, k: nat)
    requires k < |End(cfg, steps).sockets|
    ensures
      var s := End(cfg, steps).sockets[k];
      && (s.handshakeHeld || s.stage == AskingHandshake ==> HalfPassed(steps, k))
      && (s.stage == Open ==> Passed(steps, k))
    decreases |steps|
  {
    hide GrantedAt, Passed, HalfPassed;
    if steps != [] {
      var before, step := steps[..|steps| - 1], steps[|steps| - 1];
      var s := End(cfg, before);
      PassedLater(steps, k);
      if k < |s.sockets| {
        OpenWasGranted(cfg, before, k);
      }
      LastGrants(steps, k);
    }
  }

  /** A socket turned away at step i holds no slot and never opens, however the run goes on. */
  lemma {:induction false} RefusedStaysOut(cfg: Config, steps: seq<Step>, i: nat, k: nat)
    requires i < |steps| && Enabled(End(cfg, steps[..i]), steps[i])
    requires (steps[i].ConnectionAnswer? || steps[i].HandshakeAnswer?) && steps[i].k == k && !steps[i].granted
    ensures k < |End(cfg, steps).sockets| && End(cfg, steps).sockets[k] == Socket(Over, false, false, false)
    decreases |steps|
  {
    var before := steps[..|steps| - 1];
    if i == |steps| - 1 {
      assert before == steps[..i];
    } else {
      assert before[..i] == steps[..i];
      RefusedStaysOut(cfg, before, i, k);
    }
  }

  lemma {:induction false} ConnectionsBounded(cfg: Config, steps: seq<Step>)
    requires cfg.maxConnections >= 0
    ensures End(cfg, steps).activeConnections <= cfg.maxConnections
    decreases |steps|
  {
    if steps != [] {
      ConnectionsBounded(cfg, steps[..|steps| - 1]);
    }
  }

  lemma Extend(cfg: Config, steps: seq<Step>, step: Step)
    requires Enabled(End(cfg, steps), step)
    ensures End(cfg, steps + [step]) == Next(cfg, End(cfg, steps), step)
  {
    assert (steps + [step])[..|steps|] == steps;
  }

  lemma {:induction false} AskedTwice()
    ensures End(Config(1, 1), [Arrival(true)] + [ConnectionAnswer(0, true, 0)]) == Server(1, 1, [0], [Socket(AskingHandshake, true, true, false)])
  {
    hide End;
    assert End(Config(1, 1), []) == STARTED by { Begin(Config(1, 1)); }
    Extend(Config(1, 1), [], Arrival(true));
    assert [] + [Arrival(true)] == [Arrival(true)];
    assert L.Since([], -L.WINDOW_MS) == [];
    Extend(Config(1, 1), [Arrival(true)], ConnectionAnswer(0, true, 0));
  }

  lemma Begin(cfg: Config)
    ensures End(cfg, []) == STARTED
  {
  }

  /** One refused handshake is enough: no socket is left, yet one handshake counts as active. */
  lemma RefusalLeaksSlot()
    ensures
      var s := End(Config(1, 1), [Arrival(true)] + [ConnectionAnswer(0, true, 0)] + [HandshakeAnswer(0, false)]);
      && ConnectionsHeld(s.sockets) == 0 && HandshakesHeld(s.sockets) == 0
      && s.activeConnections == 0 && s.activeHandshakes == 1
  {
    hide End;
    AskedTwice();
    Extend(Config(1, 1), [Arrival(true)] + [ConnectionAnswer(0, true, 0)], HandshakeAnswer(0, false));
    HeldAppend([], TURNED_AWAY);
    assert [] + [TURNED_AWAY] == [TURNED_AWAY];
  }

  /** A peer that leaves while the second check is awaited, which is then granted, takes both slots for good. */
  lemma DepartureLeaksSlots()
    ensures
      var s := End(Config(1, 1), [Arrival(true)] + [ConnectionAnswer(0, true, 0)] + [Departure(0)] + [HandshakeAnswer(0, true)]);
      && ConnectionsHeld(s.sockets) == 0 && HandshakesHeld(s.sockets) == 0
      && s.activeConnections == 1 && s.activeHandshakes == 1
      && forall step :: Enabled(s, step) ==> step.Arrival?
  {
    hide End;
    AskedTwice();
    var asked := [Arrival(true)] + [ConnectionAnswer(0, true, 0)];
    Extend(Config(1, 1), asked, Departure(0));
    Extend(Config(1, 1), asked + [Departure(0)], HandshakeAnswer(0, true));
    var lost := Socket(Open, true, true, true);
    HeldAppend([], lost);
    assert [] + [lost] == [lost];
  }
}
