/** The nonce memory that rejects replayed messages. */
module ReplayGuard {

  datatype Options = Options(maxClockSkewMs: int, nonceTtlMs: int, maxEntries: nat)

  /** The shipped defaults. */
  const DEFAULTS := Options(60_000, 120_000, 10_000)

  /** A remembered nonce; the memory keeps insertion order. */
  datatype Entry = Entry(key: string, expiresAt: int)

  /** One call, with the two clock readings it makes. */
  datatype Call = Call(purgeTime: int, now: int, nonce: string, timestamp: int, correlationId: string) {
    function Key(): string {
      correlationId + ":" + nonce
    }
  }

  // ---------- Specification ----------

  function Purged(entries: seq<Entry>, now: int): (r: seq<Entry>)
    ensures |r| <= |entries|
    ensures forall e :: e in r <==> e in entries && e.expiresAt > now
  {
    if entries == [] then []
    else
      var rest := Purged(entries[..|entries| - 1], now);
      var last := entries[|entries| - 1];
      if last.expiresAt <= now then rest else rest + [last]
  }

  /** A full memory forgets its oldest entry. */
  function Evicted(entries: seq<Entry>, max: nat): seq<Entry> {
    if |entries| >= max && entries != [] then entries[1..] else entries
  }

  predicate Holds(entries: seq<Entry>, key: string) {
    exists i :: 0 <= i < |entries| && entries[i].key == key
  }

  function Kept(o: Options, entries: seq<Entry>, call: Call): seq<Entry> {
    Evicted(Purged(entries, call.purgeTime), o.maxEntries)
  }

  predicate InSkew(o: Options, call: Call) {
    call.timestamp > 0 && -o.maxClockSkewMs <= call.now - call.timestamp <= o.maxClockSkewMs
  }

  predicate Accepts(o: Options, entries: seq<Entry>, call: Call) {
    InSkew(o, call) && !Holds(Kept(o, entries, call), call.Key())
  }

  /** The memory after a call, accepted or not. */
  function After(o: Options, entries: seq<Entry>, call: Call): seq<Entry> {
    Kept(o, entries, call) +
    if Accepts(o, entries, call) then [Entry(call.Key(), call.now + o.nonceTtlMs)] else []
  }

  // ---------- Implementation ----------

  datatype Verdict = Accepted | OutsideSkew | Replay

  class ReplayGuard {
    const options: Options
    var seenNonces: seq<Entry>

    constructor (options: Options)
      ensures this.options == options && seenNonces == []
    {
      this.options := options;
      seenNonces := [];
    }

    method Validate(call: Call) returns (v: Verdict)
      modifies this
      ensures seenNonces == After(options, old(seenNonces), call)
      ensures v == Accepted <==> Accepts(options, old(seenNonces), call)
      ensures v == OutsideSkew <==>
        call.timestamp <= 0 || call.now - call.timestamp > options.maxClockSkewMs || call.timestamp - call.now > options.maxClockSkewMs
      ensures v == Replay ==>
        exists e :: e in old(seenNonces) && e.key == call.correlationId + ":" + call.nonce && e.expiresAt > call.purgeTime
      ensures v == Accepted ==>
        seenNonces != [] && seenNonces[|seenNonces| - 1] == Entry(call.correlationId + ":" + call.nonce, call.now + options.nonceTtlMs)
      ensures forall e :: e in (if v == Accepted then seenNonces[..|seenNonces| - 1] else seenNonces) ==>
        e in old(seenNonces) && e.expiresAt > call.purgeTime
    {
      Purge(call.purgeTime);
      if |seenNonces| >= options.maxEntries && |seenNonces| > 0 {
        seenNonces := seenNonces[1..];
      }
      if call.timestamp <= 0 || call.now - call.timestamp > options.maxClockSkewMs || call.timestamp - call.now > options.maxClockSkewMs {
        return OutsideSkew;
      }
      if Holds(seenNonces, call.Key()) {
        return Replay;
      }
      seenNonces := seenNonces + [Entry(call.Key(), call.now + options.nonceTtlMs)];
      v := Accepted;
    }

    method Purge(now: int)
      modifies this
      ensures seenNonces == Purged(old(seenNonces), now)
    {
      var kept: seq<Entry> := [];
      for i := 0 to |seenNonces|
        invariant seenNonces == old(seenNonces)
        invariant kept == Purged(seenNonces[..i], now)
      {
        assert seenNonces[..i + 1][..i] == seenNonces[..i];
        if seenNonces[i].expiresAt > now {
          kept := kept + [seenNonces[i]];
        }
      }
      assert seenNonces[..|seenNonces|] == seenNonces;
      seenNonces := kept;
    }
  }

  // ---------- Runs ----------

  /** The memory after a list of calls on a new guard. */
  function Memory(o: Options, calls: seq<Call>): seq<Entry> {
    if calls == [] then [] else After(o, Memory(o, calls[..|calls| - 1]), calls[|calls| - 1])
  }

  predicate AcceptedAt(o: Options, calls: seq<Call>, i: nat)
    requires i < |calls|
  {
    Accepts(o, Memory(o, calls[..i]), calls[i])
  }

  /** Call i makes a full memory forget this key although it has not expired. */
  predicate EvictedAt(o: Options, calls: seq<Call>, i: nat, key: string)
    requires i < |calls|
  {
    var live := Purged(Memory(o, calls[..i]), calls[i].purgeTime);
    |live| >= o.maxEntries && live != [] && live[0].key == key
  }

  /** Clock readings never go back, within and between calls. */
  predicate Monotone(calls: seq<Call>) {
    && (forall i :: 0 <= i < |calls| ==> calls[i].purgeTime <= calls[i].now)
    && (forall i, j :: 0 <= i < j < |calls| ==> calls[i].now <= calls[j].purgeTime)
  }

  predicate SameMessage(a: Call, b: Call) {
    a.nonce == b.nonce && a.correlationId == b.correlationId && a.timestamp == b.timestamp
  }

  // ---------- The memory never holds more than its capacity ----------

  lemma {:induction false} MemoryBounded(o: Options, calls: seq<Call>)
    requires o.maxEntries >= 1
    ensures |Memory(o, calls)| <= o.maxEntries
    decreases |calls|
  {
    if calls != [] {
      MemoryBounded(o, calls[..|calls| - 1]);
    }
  }

  // ---------- Replays ----------

  /** An entry that has neither expired nor been evicted is still remembered. */
  lemma {:induction false} StillHeld(o: Options, calls: seq<Call>, i: nat, j: nat)
    requires Monotone(calls) && i < j <= |calls| && AcceptedAt(o, calls, i)
    requires forall k :: i < k < j ==> !EvictedAt(o, calls, k, calls[i].Key())
    requires forall k :: i < k < j ==> calls[k].purgeTime < calls[i].now + o.nonceTtlMs
    ensures Entry(calls[i].Key(), calls[i].now + o.nonceTtlMs) in Memory(o, calls[..j])
    decreases j
  {
    hide Purged;
    var e := Entry(calls[i].Key(), calls[i].now + o.nonceTtlMs);
    assert calls[..j][..j - 1] == calls[..j - 1] && calls[..j][j - 1] == calls[j - 1];
    if j - 1 > i {
      StillHeld(o, calls, i, j - 1);
      var live := Purged(Memory(o, calls[..j - 1]), calls[j - 1].purgeTime);
      assert e in live;
      assert !EvictedAt(o, calls, j - 1, e.key);
      var p :| 0 <= p < |live| && live[p] == e;
      assert Evicted(live, o.maxEntries) == live || Evicted(live, o.maxEntries)[p - 1] == e;
    } else {
      assert Memory(o, calls[..j])[|Memory(o, calls[..j])| - 1] == e;
    }
  }

  /** The same message is refused while its entry is live and has not been evicted. */
  lemma RefusedWhileLive(o: Options, calls: seq<Call>, i: nat, j: nat)
    requires Monotone(calls) && i < j < |calls|
    requires AcceptedAt(o, calls, i) && calls[j].Key() == calls[i].Key()
    requires forall k :: i < k <= j ==> !EvictedAt(o, calls, k, calls[i].Key())
    requires calls[j].purgeTime < calls[i].now + o.nonceTtlMs
    ensures !AcceptedAt(o, calls, j)
  {
    hide Purged;
    forall k | i < k < j ensures calls[k].purgeTime < calls[i].now + o.nonceTtlMs {
      assert calls[k].now <= calls[j].purgeTime;
    }
    StillHeld(o, calls, i, j);
    var e := Entry(calls[i].Key(), calls[i].now + o.nonceTtlMs);
    var live := Purged(Memory(o, calls[..j]), calls[j].purgeTime);
    assert e in live && !EvictedAt(o, calls, j, e.key);
    var p :| 0 <= p < |live| && live[p] == e;
    var kept := Evicted(live, o.maxEntries);
    assert kept == live || kept[p - 1] == e;
    assert Holds(kept, e.key);
  }

  /** In every run, a message accepted twice was evicted by a full memory in between. */
  ghost predicate ReplaySafe(o: Options) {
    forall calls: seq<Call>, i: nat, j: nat ::
      Monotone(calls) && i < j < |calls| && SameMessage(calls[i], calls[j])
      && AcceptedAt(o, calls, i) && AcceptedAt(o, calls, j)
      ==> exists k :: i < k <= j && EvictedAt(o, calls, k, calls[i].Key())
  }

  /**
   * Replays are excluded exactly when nonces are kept for more than twice the clock skew, or
   * when a negative skew admits no message at all.
   * The shipped defaults keep them for exactly twice the skew.
   */
  lemma ReplaySafeExactly(o: Options)
    ensures ReplaySafe(o) <==> o.nonceTtlMs > 2 * o.maxClockSkewMs || o.maxClockSkewMs < 0
  {
    hide Purged, Memory, Accepts;
    if o.nonceTtlMs > 2 * o.maxClockSkewMs || o.maxClockSkewMs < 0 {
      forall calls: seq<Call>, i: nat, j: nat |
        Monotone(calls) && i < j < |calls| && SameMessage(calls[i], calls[j])
        && AcceptedAt(o, calls, i) && AcceptedAt(o, calls, j)
        ensures exists k :: i < k <= j && EvictedAt(o, calls, k, calls[i].Key())
      {
        AcceptedInSkew(o, calls, i);
        AcceptedInSkew(o, calls, j);
        if forall k :: i < k <= j ==> !EvictedAt(o, calls, k, calls[i].Key()) {
          RefusedWhileLive(o, calls, i, j);
        }
      }
    } else {
      var calls := LateReplay(o);
      assert !exists k :: 0 < k <= 1 && EvictedAt(o, calls, k, calls[0].Key());
    }
  }

  lemma AcceptedInSkew(o: Options, calls: seq<Call>, i: nat)
    requires i < |calls| && AcceptedAt(o, calls, i)
    ensures InSkew(o, calls[i])
  {
  }

  /** The first copy arrives as early as the skew allows, the second as late. */
  lemma LateReplay(o: Options) returns (calls: seq<Call>)
    requires o.maxClockSkewMs >= 0 && o.nonceTtlMs <= 2 * o.maxClockSkewMs
    ensures Monotone(calls) && |calls| == 2 && SameMessage(calls[0], calls[1])
    ensures AcceptedAt(o, calls, 0) && AcceptedAt(o, calls, 1)
    ensures !EvictedAt(o, calls, 1, calls[0].Key())
  {
    var early, late := 1, 1 + 2 * o.maxClockSkewMs;
    var first := Call(early, early, "n", 1 + o.maxClockSkewMs, "c");
    var second := Call(late, late, "n", 1 + o.maxClockSkewMs, "c");
    calls := [first, second];
    hide Accepts, Purged, Memory;
    FirstCall(o, first);
    AfterExpiry(o, Entry(first.Key(), early + o.nonceTtlMs), second);
    assert calls[..0] == [] && calls[..1] == [first];
  }

  lemma FirstCall(o: Options, call: Call)
    requires InSkew(o, call)
    ensures Memory(o, []) == [] && Accepts(o, [], call)
    ensures Memory(o, [call]) == [Entry(call.Key(), call.now + o.nonceTtlMs)]
  {
    assert [call][..0] == [] && Purged([], call.purgeTime) == [];
  }

  lemma AfterExpiry(o: Options, e: Entry, call: Call)
    requires InSkew(o, call) && e.expiresAt <= call.purgeTime
    ensures Purged([e], call.purgeTime) == [] && Accepts(o, [e], call)
  {
    assert [e][..0] == [];
  }

  /** At the defaults, a minute of skew and two minutes of memory, a message received at the two ends of its skew window is accepted twice. */
  lemma DefaultsAllowLateReplay()
    ensures DEFAULTS == Options(60_000, 120_000, 10_000) && !ReplaySafe(DEFAULTS)
  {
    ReplaySafeExactly(DEFAULTS);
  }

  // ---------- Spacing of repeated acceptances ----------

  /** The acceptances among calls i to j, the last excluded. */
  function Acceptances(o: Options, calls: seq<Call>, i: nat, j: nat): nat
    requires i <= j <= |calls|
    decreases j - i
  {
    if i == j then 0
    else Acceptances(o, calls, i, j - 1) + if AcceptedAt(o, calls, j - 1) then 1 else 0
  }

  /** The entry of an accepted call stands in the memory with at most n later entries behind it. */
  ghost predicate Behind(entries: seq<Entry>, e: Entry, n: nat) {
    exists p :: 0 <= p < |entries| && entries[p] == e && |entries| - 1 - p <= n
  }

  lemma {:induction false} PurgeBehind(entries: seq<Entry>, now: int, e: Entry, n: nat)
    requires Behind(entries, e, n) && e.expiresAt > now
    ensures Behind(Purged(entries, now), e, n)
    decreases |entries|
  {
    var p :| 0 <= p < |entries| && entries[p] == e && |entries| - 1 - p <= n;
    var m := |entries| - 1;
    var rest := Purged(entries[..m], now);
    var all := Purged(entries, now);
    if p == m {
      assert all[|all| - 1] == e;
    } else {
      assert entries[..m][p] == e;
      PurgeBehind(entries[..m], now, e, n - 1);
      var q :| 0 <= q < |rest| && rest[q] == e && |rest| - 1 - q <= n - 1;
      assert all[q] == e;
    }
  }

  /** Until the entry expires, it is remembered, or enough other calls were accepted to push it out. */
  lemma {:induction false} HeldOrPushedOut(o: Options, calls: seq<Call>, i: nat, j: nat)
    requires Monotone(calls) && i < j <= |calls| && AcceptedAt(o, calls, i)
    requires forall k :: i < k < j ==> calls[k].purgeTime < calls[i].now + o.nonceTtlMs
    ensures
      || Behind(Memory(o, calls[..j]), Entry(calls[i].Key(), calls[i].now + o.nonceTtlMs), Acceptances(o, calls, i + 1, j))
      || Acceptances(o, calls, i + 1, j) >= o.maxEntries - 1
    decreases j
  {
    hide Purged, Accepts;
    var e := Entry(calls[i].Key(), calls[i].now + o.nonceTtlMs);
    var m := j - 1;
    assert calls[..j][..m] == calls[..m] && calls[..j][m] == calls[m];
    var memory := Memory(o, calls[..j]);
    if m == i {
      assert memory[|memory| - 1] == e;
    } else {
      HeldOrPushedOut(o, calls, i, m);
      var n := Acceptances(o, calls, i + 1, m);
      if n < o.maxEntries - 1 {
        PurgeBehind(Memory(o, calls[..m]), calls[m].purgeTime, e, n);
        EvictBehind(Purged(Memory(o, calls[..m]), calls[m].purgeTime), o.maxEntries, e, n);
        var kept := Kept(o, Memory(o, calls[..m]), calls[m]);
        var p :| 0 <= p < |kept| && kept[p] == e && |kept| - 1 - p <= n;
        assert memory[p] == e;
      }
    }
  }

  lemma EvictBehind(live: seq<Entry>, max: nat, e: Entry, n: nat)
    requires Behind(live, e, n) && n < max - 1
    ensures Behind(Evicted(live, max), e, n)
  {
    var p :| 0 <= p < |live| && live[p] == e && |live| - 1 - p <= n;
    var kept := Evicted(live, max);
    assert kept == live || kept[p - 1] == e;
  }

  /**
   * Two acceptances of one key, the second before the first has expired, have at least
   * maxEntries - 1 other acceptances between them.
   */
  lemma RepeatsAreSpaced(o: Options, calls: seq<Call>, i: nat, j: nat)
    requires Monotone(calls) && i < j < |calls|
    requires AcceptedAt(o, calls, i) && AcceptedAt(o, calls, j) && calls[i].Key() == calls[j].Key()
    requires calls[j].purgeTime < calls[i].now + o.nonceTtlMs
    ensures Acceptances(o, calls, i + 1, j) >= o.maxEntries - 1
  {
    hide Purged, Memory;
    forall k | i < k < j ensures calls[k].purgeTime < calls[i].now + o.nonceTtlMs {
      assert calls[k].now <= calls[j].purgeTime;
    }
    HeldOrPushedOut(o, calls, i, j);
    var e := Entry(calls[i].Key(), calls[i].now + o.nonceTtlMs);
    var n := Acceptances(o, calls, i + 1, j);
    if n < o.maxEntries - 1 {
      HeldIsRefused(o, Memory(o, calls[..j]), calls[j], e, n);
    }
  }

  lemma HeldIsRefused(o: Options, memory: seq<Entry>, call: Call, e: Entry, n: nat)
    requires Behind(memory, e, n) && n < o.maxEntries - 1
    requires e.key == call.Key() && call.purgeTime < e.expiresAt
    ensures !Accepts(o, memory, call)
  {
    hide Purged;
    PurgeBehind(memory, call.purgeTime, e, n);
    EvictBehind(Purged(memory, call.purgeTime), o.maxEntries, e, n);
    var kept := Kept(o, memory, call);
    var p :| 0 <= p < |kept| && kept[p] == e;
    assert Holds(kept, e.key);
  }
}
