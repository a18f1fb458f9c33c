/**
 * Several server instances sharing counters in Redis: each request reads the
 * clock, later increments its counter, and whoever sees 1 later sets the expiry.
 */
module DistributedRateLimiter {
  import opened Wrappers

  datatype Key = Key(ip: string, slot: int)

  datatype Counter = Counter(count: nat, expiresAt: Option<int>)

  datatype Options = Options(limit: int, windowMs: int)

  /** A request that has computed its key and waits for its increment. */
  datatype Pending = Pending(id: nat, key: Key)

  datatype Grant = Grant(key: Key, time: int)

  /** Redis, the requests in flight, the expiries still to be set, and every grant so far. */
  datatype State = State(redis: map<Key, Counter>, waiting: set<Pending>, toExpire: set<Key>, grants: seq<Grant>, now: int)

  datatype Step =
    | Read(id: nat, ip: string, time: int)
    | Incr(request: Pending, time: int)
    | Expire(key: Key, time: int)

  const INITIAL := State(map[], {}, {}, [], 0)

  function SlotAt(o: Options, time: int): int
    requires o.windowMs > 0
  {
    time / o.windowMs
  }

  /** The lifetime of a counter: two windows, rounded up to whole seconds. */
  function TtlMs(o: Options): (ms: int)
    ensures ms >= 2 * o.windowMs
  {
    (2 * o.windowMs + 999) / 1000 * 1000
  }

  predicate Alive(redis: map<Key, Counter>, key: Key, time: int) {
    key in redis && (redis[key].expiresAt.None? || time < redis[key].expiresAt.value)
  }

  /** The value INCR returns: an expired or missing counter starts again at 1. */
  function NextCount(redis: map<Key, Counter>, key: Key, time: int): nat {
    if Alive(redis, key, time) then redis[key].count + 1 else 1
  }

  predicate Enabled(s: State, step: Step) {
    match step
    case Read(_, _, time) => time >= s.now
    case Incr(request, time) => time >= s.now && request in s.waiting
    case Expire(key, time) => time >= s.now && key in s.toExpire
  }

  function Next(o: Options, s: State, step: Step): State
    requires o.windowMs > 0
  {
    match step
    case Read(id, ip, time) =>
      s.(waiting := s.waiting + {Pending(id, Key(ip, SlotAt(o, time)))}, now := time)
    case Incr(request, time) =>
      var count := NextCount(s.redis, request.key, time);
      var expiry := if Alive(s.redis, request.key, time) then s.redis[request.key].expiresAt else None;
      State(s.redis[request.key := Counter(count, expiry)],
            s.waiting - {request},
            if count == 1 then s.toExpire + {request.key} else s.toExpire,
            if count <= o.limit then s.grants + [Grant(request.key, time)] else s.grants,
            time)
    case Expire(key, time) =>
      s.(redis := if Alive(s.redis, key, time) then s.redis[key := s.redis[key].(expiresAt := Some(time + TtlMs(o)))] else s.redis,
         toExpire := s.toExpire - {key},
         now := time)
  }

  /** The state after any list of steps; a step that is not enabled does not happen. */
  function End(o: Options, steps: seq<Step>): State
    requires o.windowMs > 0
  {
    if steps == [] then INITIAL
    else
      var s := End(o, steps[..|steps| - 1]);
      if Enabled(s, steps[|steps| - 1]) then Next(o, s, steps[|steps| - 1]) else s
  }

  /** Every increment reaches Redis within d milliseconds of the start of the window it counts for. */
  ghost predicate Timely(o: Options, steps: seq<Step>, d: int) {
    forall i :: 0 <= i < |steps| && steps[i].Incr? ==> steps[i].time < steps[i].request.key.slot * o.windowMs + d
  }

  function GrantsOf(grants: seq<Grant>, key: Key): nat {
    if grants == [] then 0
    else GrantsOf(grants[..|grants| - 1], key) + if grants[|grants| - 1].key == key then 1 else 0
  }

  /** The grants of an address in the closed interval of this length. */
  function GrantsWithin(grants: seq<Grant>, ip: string, low: int, length: int): nat {
    if grants == [] then 0
    else
      var last := grants[|grants| - 1];
      GrantsWithin(grants[..|grants| - 1], ip, low, length) + if last.key.ip == ip && low <= last.time <= low + length then 1 else 0
  }

  function Max(limit: int): nat {
    if limit > 0 then limit else 0
  }

  // ---------- The limits hold for timely increments ----------

  /** Every expiry that is set comes a whole lifetime after its window began. */
  ghost predicate ExpiresLate(o: Options, redis: map<Key, Counter>) {
    forall key :: key in redis && redis[key].expiresAt.Some? ==> redis[key].expiresAt.value >= key.slot * o.windowMs + TtlMs(o)
  }

  ghost predicate Begun(o: Options, s: State) {
    && (forall p :: p in s.waiting ==> s.now >= p.key.slot * o.windowMs)
    && (forall key :: key in s.toExpire ==> s.now >= key.slot * o.windowMs)
  }

  function CountOf(redis: map<Key, Counter>, key: Key): nat {
    if key in redis then redis[key].count else 0
  }

  /** The grants for a key are its count, up to the limit. */
  predicate Counted(o: Options, redis: map<Key, Counter>, grants: nat, key: Key) {
    grants == if CountOf(redis, key) <= Max(o.limit) then CountOf(redis, key) else Max(o.limit)
  }

  ghost predicate AllCounted(o: Options, s: State) {
    forall key :: Counted(o, s.redis, GrantsOf(s.grants, key), key)
  }

  ghost predicate GrantedBy(o: Options, grants: seq<Grant>, d: int) {
    forall i :: 0 <= i < |grants| ==>
      grants[i].key.slot * o.windowMs <= grants[i].time < grants[i].key.slot * o.windowMs + d
  }

  ghost predicate Inv(o: Options, s: State, d: int) {
    ExpiresLate(o, s.redis) && Begun(o, s) && AllCounted(o, s) && GrantedBy(o, s.grants, d) && (o.limit <= 0 ==> s.grants == [])
  }

  lemma GrantsOfSnoc(grants: seq<Grant>, g: Grant, key: Key)
    ensures GrantsOf(grants + [g], key) == GrantsOf(grants, key) + if g.key == key then 1 else 0
  {
    assert (grants + [g])[..|grants|] == grants;
  }

  lemma StepKeepsInv(o: Options, s: State, step: Step, d: int)
    requires o.windowMs > 0 && Enabled(s, step) && Inv(o, s, d) && (d <= TtlMs(o) || o.limit <= 0)
    requires step.Incr? ==> step.time < step.request.key.slot * o.windowMs + d
    ensures Inv(o, Next(o, s, step), d)
  {
    hide GrantsOf, TtlMs, SlotAt;
    var t := Next(o, s, step);
    match step
    case Read(_, _, time) =>
      SlotBegins(o, time);
    case Incr(request, time) =>
      assert d <= TtlMs(o) && request.key in s.redis ==> Alive(s.redis, request.key, time);
      forall k ensures Counted(o, t.redis, GrantsOf(t.grants, k), k) {
        GrantsOfSnoc(s.grants, Grant(request.key, time), k);
        assert Counted(o, s.redis, GrantsOf(s.grants, k), k);
      }
    case Expire(key, time) =>
      forall k ensures Counted(o, t.redis, GrantsOf(t.grants, k), k) {
        assert Counted(o, s.redis, GrantsOf(s.grants, k), k);
      }
  }

  lemma SlotBegins(o: Options, time: int)
    requires o.windowMs > 0
    ensures SlotAt(o, time) * o.windowMs <= time < SlotAt(o, time) * o.windowMs + o.windowMs
  {
  }

  lemma {:induction false} RunKeepsInv(o: Options, steps: seq<Step>, d: int)
    requires o.windowMs > 0 && Timely(o, steps, d) && (d <= TtlMs(o) || o.limit <= 0)
    ensures Inv(o, End(o, steps), d)
    decreases |steps|
  {
    hide Inv, Next, Enabled;
    if steps == [] {
      NothingCounted(o, d);
    } else {
      var before, step := steps[..|steps| - 1], steps[|steps| - 1];
      RunKeepsInv(o, before, d);
      if Enabled(End(o, before), step) {
        StepKeepsInv(o, End(o, before), step, d);
      }
    }
  }

  lemma NothingCounted(o: Options, d: int)
    ensures Inv(o, INITIAL, d)
  {
  }

  lemma InvBounds(o: Options, s: State, d: int, key: Key)
    requires Inv(o, s, d)
    ensures GrantsOf(s.grants, key) <= Max(o.limit) && GrantedBy(o, s.grants, d) && (o.limit <= 0 ==> s.grants == [])
  {
    assert Counted(o, s.redis, GrantsOf(s.grants, key), key);
  }

  lemma {:induction false} IntervalMeetsTwoSlots(o: Options, grants: seq<Grant>, ip: string, low: int, d: int)
    requires o.windowMs > 0 && d <= o.windowMs && GrantedBy(o, grants, d)
    ensures
      GrantsWithin(grants, ip, low, o.windowMs) <=
        GrantsOf(grants, Key(ip, SlotAt(o, low))) + GrantsOf(grants, Key(ip, SlotAt(o, low) + 1))
  {
    hide SlotAt;
    if grants != [] {
      var last := grants[|grants| - 1];
      IntervalMeetsTwoSlots(o, grants[..|grants| - 1], ip, low, d);
      if low <= last.time <= low + o.windowMs {
        NearbySlot(o, low, last.time, last.key.slot);
      }
    }
  }

  lemma NearbySlot(o: Options, low: int, time: int, slot: int)
    requires o.windowMs > 0 && low <= time <= low + o.windowMs
    requires slot * o.windowMs <= time < slot * o.windowMs + o.windowMs
    ensures SlotAt(o, low) <= slot <= SlotAt(o, low) + 1
  {
    var a, w := SlotAt(o, low), o.windowMs;
    SlotBegins(o, low);
    LessFactor(a, slot + 1, w);
    LessFactor(slot, a + 2, w);
    assert (a + 2) * w == a * w + w + w && (slot + 1) * w == slot * w + w;
  }

  lemma LessFactor(a: int, b: int, w: int)
    requires w > 0
    ensures a * w < b * w ==> a < b
  {
  }

  // ---------- And for no others ----------

  lemma Extend(o: Options, steps: seq<Step>, step: Step, d: int)
    requires o.windowMs > 0 && Enabled(End(o, steps), step) && Timely(o, steps, d)
    requires step.Incr? ==> step.time < step.request.key.slot * o.windowMs + d
    ensures End(o, steps + [step]) == Next(o, End(o, steps), step) && Timely(o, steps + [step], d)
  {
    assert (steps + [step])[..|steps|] == steps;
  }

  /** Requests low to high - 1 of one address, all waiting for the same counter. */
  function Requests(ip: string, slot: int, low: nat, high: nat): set<Pending> {
    set id: nat | low <= id < high :: Pending(id, Key(ip, slot))
  }

  lemma {:induction false} ReadMany(o: Options, steps: seq<Step>, d: int, ip: string, time: int, low: nat, high: nat) returns (t: seq<Step>)
    requires o.windowMs > 0 && Timely(o, steps, d) && low <= high && time >= End(o, steps).now
    ensures Timely(o, t, d)
    ensures End(o, t) == End(o, steps).(waiting := End(o, steps).waiting + Requests(ip, SlotAt(o, time), low, high),
                                        now := if low == high then End(o, steps).now else time)
    decreases high
  {
    hide End, Timely, SlotAt;
    if low == high {
      t := steps;
      assert End(o, steps).waiting + Requests(ip, SlotAt(o, time), low, high) == End(o, steps).waiting;
    } else {
      var r := ReadMany(o, steps, d, ip, time, low, high - 1);
      var step := Read(high - 1, ip, time);
      Extend(o, r, step, d);
      t := r + [step];
      var old_, new_ := Requests(ip, SlotAt(o, time), low, high - 1), Requests(ip, SlotAt(o, time), low, high);
      assert new_ == old_ + {Pending(high - 1, Key(ip, SlotAt(o, time)))};
      assert End(o, t).waiting == End(o, steps).waiting + new_;
    }
  }

  /** Increments of a counter that does not exist yet, up to the limit: each is granted. */
  lemma {:induction false} GrantMany(o: Options, steps: seq<Step>, d: int, ip: string, slot: int, time: int, low: nat, high: nat)
    returns (t: seq<Step>)
    requires o.windowMs > 0 && Timely(o, steps, d) && low <= high <= low + Max(o.limit)
    requires time >= End(o, steps).now && time < slot * o.windowMs + d
    requires Requests(ip, slot, low, high) <= End(o, steps).waiting && Key(ip, slot) !in End(o, steps).redis
    ensures Timely(o, t, d)
    ensures
      var s, e := End(o, steps), End(o, t);
      && e.waiting == s.waiting - Requests(ip, slot, low, high)
      && e.redis == (if low == high then s.redis else s.redis[Key(ip, slot) := Counter(high - low, None)])
      && e.now == (if low == high then s.now else time)
      && (low < high ==> Key(ip, slot) in e.toExpire) && s.toExpire <= e.toExpire
      && (forall key :: GrantsOf(e.grants, key) == GrantsOf(s.grants, key) + if key == Key(ip, slot) then high - low else 0)
      && (forall a, b :: GrantsWithin(e.grants, ip, a, b) == GrantsWithin(s.grants, ip, a, b) + if a <= time <= a + b then high - low else 0)
    decreases high
  {
    hide End, Timely, GrantsOf, GrantsWithin;
    if low == high {
      t := steps;
      assert End(o, steps).waiting - Requests(ip, slot, low, high) == End(o, steps).waiting;
    } else {
      var key := Key(ip, slot);
      assert Requests(ip, slot, low, high) == Requests(ip, slot, low, high - 1) + {Pending(high - 1, key)};
      var r := GrantMany(o, steps, d, ip, slot, time, low, high - 1);
      var step := Incr(Pending(high - 1, key), time);
      assert Pending(high - 1, key) in End(o, r).waiting;
      Extend(o, r, step, d);
      t := r + [step];
      assert End(o, t).grants == End(o, r).grants + [Grant(key, time)];
      forall k ensures GrantsOf(End(o, t).grants, k) == GrantsOf(End(o, r).grants, k) + if k == key then 1 else 0 {
        GrantsOfSnoc(End(o, r).grants, Grant(key, time), k);
      }
      forall a, b ensures GrantsWithin(End(o, t).grants, ip, a, b) == GrantsWithin(End(o, r).grants, ip, a, b) + if a <= time <= a + b then 1 else 0 {
        GrantsWithinSnoc(End(o, r).grants, Grant(key, time), ip, a, b);
      }
    }
  }

  lemma GrantsWithinSnoc(grants: seq<Grant>, g: Grant, ip: string, low: int, length: int)
    ensures GrantsWithin(grants + [g], ip, low, length) ==
      GrantsWithin(grants, ip, low, length) + if g.key.ip == ip && low <= g.time <= low + length then 1 else 0
  {
    assert (grants + [g])[..|grants|] == grants;
  }

  lemma Begin(o: Options, d: int)
    requires o.windowMs > 0
    ensures End(o, []) == INITIAL && Timely(o, [], d)
    ensures GrantsOf(INITIAL.grants, Key("", 0)) == 0 && GrantsWithin(INITIAL.grants, "", o.windowMs, o.windowMs) == 0
    ensures SlotAt(o, 0) == 0 && SlotAt(o, o.windowMs) == 1 && SlotAt(o, 2 * o.windowMs) == 2
  {
    assert o.windowMs / o.windowMs == 1;
    SlotBegins(o, 2 * o.windowMs);
    LessFactor(SlotAt(o, 2 * o.windowMs), 3, o.windowMs);
    LessFactor(1, SlotAt(o, 2 * o.windowMs), o.windowMs);
  }

  /** An increment that arrives when the counter has just expired starts a full window again. */
  lemma LateIncrement(o: Options, d: int) returns (steps: seq<Step>)
    requires o.windowMs > 0 && d > TtlMs(o) && o.limit > 0
    ensures Timely(o, steps, d) && GrantsOf(End(o, steps).grants, Key("", 0)) == o.limit + 1
  {
    hide End, Timely, GrantsOf, GrantsWithin, SlotAt, TtlMs;
    var key, n := Key("", 0), o.limit;
    Begin(o, d);
    var a := ReadMany(o, [], d, "", 0, 0, n + 1);
    assert Requests("", 0, 0, n) <= Requests("", 0, 0, n + 1);
    var b := GrantMany(o, a, d, "", 0, 0, 0, n);
    Extend(o, b, Expire(key, 0), d);
    var c := b + [Expire(key, 0)];
    assert Pending(n, key) in Requests("", 0, 0, n + 1) - Requests("", 0, 0, n);
    var late := Incr(Pending(n, key), TtlMs(o));
    Extend(o, c, late, d);
    steps := c + [late];
    GrantsOfSnoc(End(o, c).grants, Grant(key, TtlMs(o)), key);
  }

  /** Three windows meet in one closed interval once increments may arrive at the very end of theirs. */
  lemma ThreeWindowsMeet(o: Options, d: int) returns (steps: seq<Step>)
    requires o.windowMs > 0 && d > o.windowMs && o.limit > 0
    ensures Timely(o, steps, d) && GrantsWithin(End(o, steps).grants, "", o.windowMs, o.windowMs) == 3 * o.limit
  {
    hide End, Timely, GrantsOf, GrantsWithin, SlotAt, Next;
    var n, w := o.limit, o.windowMs;
    Begin(o, d);
    var a := ReadMany(o, [], d, "", 0, 0, n);
    var b := GrantMany(o, a, d, "", 0, w, 0, n);
    var c := ReadMany(o, b, d, "", w, n, 2 * n);
    var e := GrantMany(o, c, d, "", 1, w, n, 2 * n);
    var f := ReadMany(o, e, d, "", 2 * w, 2 * n, 3 * n);
    steps := GrantMany(o, f, d, "", 2, 2 * w, 2 * n, 3 * n);
  }

  ghost predicate SlotLimit(o: Options, d: int)
    requires o.windowMs > 0
  {
    forall steps, key :: Timely(o, steps, d) ==> GrantsOf(End(o, steps).grants, key) <= Max(o.limit)
  }

  ghost predicate IntervalLimit(o: Options, d: int)
    requires o.windowMs > 0
  {
    forall steps, ip, low :: Timely(o, steps, d) ==>
      GrantsWithin(End(o, steps).grants, ip, low, o.windowMs) <= 2 * Max(o.limit)
  }

  /**
   * Over all interleavings whose increments come less than d milliseconds after their window
   * began, no window grants more than its limit exactly when d is at most the lifetime of a
   * counter, the fewest whole seconds that cover two windows.
   */
  lemma SlotLimitExactly(o: Options, d: int, seconds: int)
    requires o.windowMs > 0
    requires 1000 * (seconds - 1) < 2 * o.windowMs <= 1000 * seconds
    ensures SlotLimit(o, d) <==> d <= 1000 * seconds || o.limit <= 0
  {
    assert TtlMs(o) == 1000 * seconds;
    hide End, Timely, GrantsOf, TtlMs, Inv;
    if d <= TtlMs(o) || o.limit <= 0 {
      forall steps, key | Timely(o, steps, d) ensures GrantsOf(End(o, steps).grants, key) <= Max(o.limit) {
        RunKeepsInv(o, steps, d);
        InvBounds(o, End(o, steps), d, key);
      }
    } else {
      var steps := LateIncrement(o, d);
    }
  }

  /** How many increments of this counter have reached Redis. */
  function Increments(o: Options, steps: seq<Step>, key: Key): nat
    requires o.windowMs > 0
  {
    if steps == [] then 0
    else
      var before, step := steps[..|steps| - 1], steps[|steps| - 1];
      Increments(o, before, key) + if Enabled(End(o, before), step) && step.Incr? && step.request.key == key then 1 else 0
  }

  lemma {:induction false} CountsIncrements(o: Options, steps: seq<Step>, d: int, key: Key)
    requires o.windowMs > 0 && Timely(o, steps, d) && d <= TtlMs(o)
    ensures CountOf(End(o, steps).redis, key) == Increments(o, steps, key)
    decreases |steps|
  {
    hide TtlMs, SlotAt, Inv;
    if steps != [] {
      var before, step := steps[..|steps| - 1], steps[|steps| - 1];
      CountsIncrements(o, before, d, key);
      RunKeepsInv(o, before, d);
      LateExpiries(o, End(o, before), d);
      assert step.Incr? ==> step.time < step.request.key.slot * o.windowMs + d;
    }
  }

  lemma LateExpiries(o: Options, s: State, d: int)
    requires Inv(o, s, d)
    ensures ExpiresLate(o, s.redis)
  {
  }

  /** With timely increments a window grants exactly the first ones, up to the limit. */
  lemma WindowGrantsExactly(o: Options, steps: seq<Step>, d: int, seconds: int, key: Key)
    requires o.windowMs > 0 && o.limit >= 0
    requires 1000 * (seconds - 1) < 2 * o.windowMs <= 1000 * seconds
    requires Timely(o, steps, d) && d <= 1000 * seconds
    ensures
      var n := Increments(o, steps, key);
      GrantsOf(End(o, steps).grants, key) == if n <= o.limit then n else o.limit
  {
    assert TtlMs(o) == 1000 * seconds;
    hide End, Timely, GrantsOf, TtlMs, Increments;
    RunKeepsInv(o, steps, d);
    CountsIncrements(o, steps, d, key);
    assert Counted(o, End(o, steps).redis, GrantsOf(End(o, steps).grants, key), key);
  }

  /** A request of this address read the clock in this window. */
  ghost predicate Asked(o: Options, steps: seq<Step>, p: Pending, i: nat) {
    && i < |steps| && steps[i].Read? && steps[i].id == p.id && steps[i].ip == p.key.ip
    && p.key.slot * o.windowMs <= steps[i].time < p.key.slot * o.windowMs + o.windowMs
  }

  /** The grant is the increment of a request of its address that read the clock in its window before. */
  ghost predicate Answers(o: Options, steps: seq<Step>, g: Grant) {
    exists i, j, id :: 0 <= i < j < |steps| && Asked(o, steps, Pending(id, g.key), i) && steps[j] == Incr(Pending(id, g.key), g.time)
  }

  ghost predicate WasAsked(o: Options, steps: seq<Step>, p: Pending) {
    exists i :: 0 <= i < |steps| && Asked(o, steps, p, i)
  }

  lemma AskedLater(o: Options, steps: seq<Step>)
    requires steps != []
    ensures forall p, i :: Asked(o, steps[..|steps| - 1], p, i) ==> Asked(o, steps, p, i)
    ensures forall p :: WasAsked(o, steps[..|steps| - 1], p) ==> WasAsked(o, steps, p)
    ensures forall g :: Answers(o, steps[..|steps| - 1], g) ==> Answers(o, steps, g)
  {
    var before := steps[..|steps| - 1];
    forall p | WasAsked(o, before, p) ensures WasAsked(o, steps, p) {
      var i :| 0 <= i < |before| && Asked(o, before, p, i);
      assert Asked(o, steps, p, i);
    }
    forall g | Answers(o, before, g) ensures Answers(o, steps, g) {
      var i, j, id :| 0 <= i < j < |before| && Asked(o, before, Pending(id, g.key), i) && before[j] == Incr(Pending(id, g.key), g.time);
      assert Asked(o, steps, Pending(id, g.key), i) && steps[j] == before[j];
    }
  }

  /** Nothing is granted, or waits, that was not asked for by its own address in its own window. */
  lemma {:induction false} GrantsAnswer(o: Options, steps: seq<Step>)
    requires o.windowMs > 0
    ensures forall p :: p in End(o, steps).waiting ==> WasAsked(o, steps, p)
    ensures forall g :: g in End(o, steps).grants ==> Answers(o, steps, g)
    decreases |steps|
  {
    hide Asked, WasAsked, Answers, SlotAt, TtlMs;
    if steps != [] {
      var n := |steps| - 1;
      var before, step := steps[..n], steps[n];
      GrantsAnswer(o, before);
      AskedLater(o, steps);
      if Enabled(End(o, before), step) {
        match step
        case Read(id, ip, time) => ReadAsks(o, steps);
        case Incr(request, time) => IncrAnswers(o, steps);
        case Expire(_, _) =>
      }
    }
  }

  lemma ReadAsks(o: Options, steps: seq<Step>)
    requires o.windowMs > 0 && steps != [] && steps[|steps| - 1].Read?
    ensures
      var step := steps[|steps| - 1];
      WasAsked(o, steps, Pending(step.id, Key(step.ip, SlotAt(o, step.time))))
  {
    var step := steps[|steps| - 1];
    SlotBegins(o, step.time);
    assert Asked(o, steps, Pending(step.id, Key(step.ip, SlotAt(o, step.time))), |steps| - 1);
  }

  lemma IncrAnswers(o: Options, steps: seq<Step>)
    requires steps != [] && steps[|steps| - 1].Incr?
    requires WasAsked(o, steps[..|steps| - 1], steps[|steps| - 1].request)
    ensures
      var step := steps[|steps| - 1];
      Answers(o, steps, Grant(step.request.key, step.time))
  {
    var n := |steps| - 1;
    var p := steps[n].request;
    var i :| 0 <= i < n && Asked(o, steps[..n], p, i);
    assert Asked(o, steps, Pending(p.id, p.key), i) && steps[n] == Incr(Pending(p.id, p.key), steps[n].time);
  }

  /**
   * No closed interval of one window's length grants an address more than twice the limit,
   * exactly when increments come within their own window.
   */
  lemma IntervalLimitExactly(o: Options, d: int)
    requires o.windowMs > 0
    ensures IntervalLimit(o, d) <==> d <= o.windowMs || o.limit <= 0
  {
    hide End, Timely, GrantsOf, GrantsWithin, TtlMs, Inv, SlotAt;
    if d <= o.windowMs || o.limit <= 0 {
      forall steps, ip, low | Timely(o, steps, d)
        ensures GrantsWithin(End(o, steps).grants, ip, low, o.windowMs) <= 2 * Max(o.limit)
      {
        assert TtlMs(o) >= 2 * o.windowMs;
        RunKeepsInv(o, steps, d);
        InvBounds(o, End(o, steps), d, Key(ip, SlotAt(o, low)));
        InvBounds(o, End(o, steps), d, Key(ip, SlotAt(o, low) + 1));
        if o.limit > 0 {
          IntervalMeetsTwoSlots(o, End(o, steps).grants, ip, low, d);
        } else {
          NoGrants(ip, low, o.windowMs);
        }
      }
    } else {
      var steps := ThreeWindowsMeet(o, d);
    }
  }

  lemma NoGrants(ip: string, low: int, length: int)
    ensures GrantsWithin([], ip, low, length) == 0
  {
  }
}
