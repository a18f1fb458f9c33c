/** Local connection and handshake limits. */
module RateLimiter {

  const WINDOW_MS := 60_000

  // ---------- Specification ----------

  /** The timestamps from a point in time on. */
  function Since(times: seq<int>, start: int): (r: seq<int>)
    ensures |r| <= |times|
  {
    if times == [] then []
    else
      var rest := Since(times[..|times| - 1], start);
      if times[|times| - 1] >= start then rest + [times[|times| - 1]] else rest
  }

  function Within(times: seq<int>, low: int, high: int): nat {
    if times == [] then 0
    else
      var last := times[|times| - 1];
      Within(times[..|times| - 1], low, high) + if low <= last <= high then 1 else 0
  }

  /** Of timestamps that are all past, those from a point on are counted by the interval up to now. */
  lemma {:induction false} SinceCounts(times: seq<int>, start: int, now: int)
    ensures forall t :: t in Since(times, start) <==> t in times && t >= start
    ensures (forall t :: t in times ==> t <= now) ==> |Since(times, start)| == Within(times, start, now)
  {
    if times != [] {
      var m := |times| - 1;
      SinceCounts(times[..m], start, now);
      assert times == times[..m] + [times[m]];
      assert times[m] in times && forall t :: t in times[..m] ==> t in times;
    }
  }

  // ---------- Implementation ----------

  class RateLimiter {
    const maxConnections: int
    const maxHandshakesPerMinute: int
    var activeConnections: nat
    var activeHandshakes: nat
    var handshakeTimestamps: seq<int>

    constructor (maxConnections: int, maxHandshakesPerMinute: int)
      ensures this.maxConnections == maxConnections && this.maxHandshakesPerMinute == maxHandshakesPerMinute
      ensures activeConnections == 0 && activeHandshakes == 0 && handshakeTimestamps == []
    {
      this.maxConnections := maxConnections;
      this.maxHandshakesPerMinute := maxHandshakesPerMinute;
      activeConnections := 0;
      activeHandshakes := 0;
      handshakeTimestamps := [];
    }

    method TryAcquireConnection() returns (ok: bool)
      modifies this`activeConnections
      ensures ok == (old(activeConnections) < maxConnections)
      ensures activeConnections == old(activeConnections) + if ok then 1 else 0
    {
      if activeConnections >= maxConnections {
        return false;
      }
      activeConnections := activeConnections + 1;
      ok := true;
    }

    method ReleaseConnection()
      modifies this`activeConnections
      ensures activeConnections == if old(activeConnections) == 0 then 0 else old(activeConnections) - 1
    {
      activeConnections := if activeConnections >= 1 then activeConnections - 1 else 0;
    }

    /** Granted exactly when fewer than the limit were granted in the last minute; older timestamps are dropped either way. */
    method TryAcquireHandshake(now: int) returns (ok: bool)
      modifies this`handshakeTimestamps, this`activeHandshakes
      ensures ok == (|Since(old(handshakeTimestamps), now - WINDOW_MS)| < maxHandshakesPerMinute)
      ensures handshakeTimestamps == Since(old(handshakeTimestamps), now - WINDOW_MS) + if ok then [now] else []
      ensures activeHandshakes == old(activeHandshakes) + if ok then 1 else 0
      ensures (forall t :: t in old(handshakeTimestamps) ==> t <= now) ==>
        ok == (Within(old(handshakeTimestamps), now - 60_000, now) < maxHandshakesPerMinute)
      ensures forall t :: t in handshakeTimestamps <==> (t in old(handshakeTimestamps) && t >= now - 60_000) || (ok && t == now)
    {
      SinceCounts(handshakeTimestamps, now - WINDOW_MS, now);
      var windowStart := now - WINDOW_MS;
      var kept: seq<int> := [];
      for i := 0 to |handshakeTimestamps|
        invariant handshakeTimestamps == old(handshakeTimestamps)
        invariant kept == Since(handshakeTimestamps[..i], windowStart)
      {
        assert handshakeTimestamps[..i + 1][..i] == handshakeTimestamps[..i];
        if handshakeTimestamps[i] >= windowStart {
          kept := kept + [handshakeTimestamps[i]];
        }
      }
      assert handshakeTimestamps[..|handshakeTimestamps|] == handshakeTimestamps;
      handshakeTimestamps := kept;
      if |handshakeTimestamps| >= maxHandshakesPerMinute {
        return false;
      }
      handshakeTimestamps := handshakeTimestamps + [now];
      activeHandshakes := activeHandshakes + 1;
      ok := true;
    }

    method ReleaseHandshake()
      modifies this`activeHandshakes
      ensures activeHandshakes == if old(activeHandshakes) == 0 then 0 else old(activeHandshakes) - 1
    {
      activeHandshakes := if activeHandshakes >= 1 then activeHandshakes - 1 else 0;
    }
  }

  // ---------- Runs ----------

  /** The pruned timestamps after handshake attempts at the given times. */
  function Pruned(max: int, attempts: seq<int>): seq<int> {
    if attempts == [] then []
    else
      var now := attempts[|attempts| - 1];
      var recent := Since(Pruned(max, attempts[..|attempts| - 1]), now - WINDOW_MS);
      if |recent| < max then recent + [now] else recent
  }

  /** Every grant ever made, deciding from the whole history. */
  function Grants(max: int, attempts: seq<int>): seq<int> {
    if attempts == [] then []
    else
      var now := attempts[|attempts| - 1];
      var before := Grants(max, attempts[..|attempts| - 1]);
      if |Since(before, now - WINDOW_MS)| < max then before + [now] else before
  }

  predicate Ordered(times: seq<int>) {
    forall i, j :: 0 <= i < j < |times| ==> times[i] <= times[j]
  }

  lemma {:induction false} SinceTwice(times: seq<int>, a: int, b: int)
    requires a <= b
    ensures Since(Since(times, a), b) == Since(times, b)
  {
    if times != [] {
      var m := |times| - 1;
      SinceTwice(times[..m], a, b);
      var r := Since(times[..m], a);
      assert (r + [times[m]])[..|r|] == r;
    }
  }

  /** Forgetting old timestamps never changes a decision. */
  lemma {:induction false} PruningAgrees(max: int, attempts: seq<int>, start: int)
    requires Ordered(attempts) && (attempts != [] ==> attempts[|attempts| - 1] - WINDOW_MS <= start)
    ensures Since(Pruned(max, attempts), start) == Since(Grants(max, attempts), start)
    decreases |attempts|
  {
    hide Since;
    if attempts == [] {
    } else {
      var m := |attempts| - 1;
      var now := attempts[m];
      var a, g := Pruned(max, attempts[..m]), Grants(max, attempts[..m]);
      PruningAgrees(max, attempts[..m], now - WINDOW_MS);
      PruningAgrees(max, attempts[..m], start);
      SinceTwice(a, now - WINDOW_MS, start);
      SinceSnoc(Since(a, now - WINDOW_MS), now, start);
      SinceSnoc(g, now, start);
    }
  }

  lemma SinceSnoc(times: seq<int>, t: int, start: int)
    ensures Since(times + [t], start) == Since(times, start) + if t >= start then [t] else []
  {
    assert (times + [t])[..|times|] == times;
  }

  lemma {:induction false} WithinAtMostSince(times: seq<int>, low: int, high: int, start: int)
    requires start <= low
    ensures Within(times, low, high) <= |Since(times, start)|
  {
    if times != [] {
      WithinAtMostSince(times[..|times| - 1], low, high, start);
    }
  }

  /** The grants of the limiter itself, which decides from its pruned timestamps. */
  function Granted(max: int, attempts: seq<int>): seq<int> {
    if attempts == [] then []
    else
      var now := attempts[|attempts| - 1];
      var before := Granted(max, attempts[..|attempts| - 1]);
      if |Since(Pruned(max, attempts[..|attempts| - 1]), now - WINDOW_MS)| < max then before + [now] else before
  }

  lemma {:induction false} DecisionsAgree(max: int, attempts: seq<int>)
    requires Ordered(attempts)
    ensures Granted(max, attempts) == Grants(max, attempts)
    decreases |attempts|
  {
    if attempts != [] {
      var m := |attempts| - 1;
      DecisionsAgree(max, attempts[..m]);
      PruningAgrees(max, attempts[..m], attempts[m] - WINDOW_MS);
    }
  }

  lemma {:induction false} FullHistoryBound(max: int, attempts: seq<int>, s: int)
    requires max >= 0
    ensures Within(Grants(max, attempts), s, s + WINDOW_MS) <= max
    decreases |attempts|
  {
    if attempts != [] {
      var m := |attempts| - 1;
      var now := attempts[m];
      var g := Grants(max, attempts[..m]);
      FullHistoryBound(max, attempts[..m], s);
      assert (g + [now])[..|g|] == g;
      if s <= now <= s + WINDOW_MS {
        WithinAtMostSince(g, s, s + WINDOW_MS, now - WINDOW_MS);
      }
    }
  }

  lemma {:induction false} GrantsArePast(max: int, attempts: seq<int>)
    requires Ordered(attempts)
    ensures forall t :: t in Grants(max, attempts) ==> attempts != [] && t <= attempts[|attempts| - 1]
    decreases |attempts|
  {
    if attempts != [] {
      GrantsArePast(max, attempts[..|attempts| - 1]);
    }
  }

  /** Under a monotone clock an attempt is granted exactly when the minute up to it holds fewer than max earlier grants. */
  lemma GrantedExactly(max: int, attempts: seq<int>)
    requires Ordered(attempts) && attempts != []
    ensures
      var now := attempts[|attempts| - 1];
      var earlier := Granted(max, attempts[..|attempts| - 1]);
      Granted(max, attempts) == if Within(earlier, now - 60_000, now) < max then earlier + [now] else earlier
  {
    var m := |attempts| - 1;
    DecisionsAgree(max, attempts);
    DecisionsAgree(max, attempts[..m]);
    GrantsArePast(max, attempts[..m]);
    SinceCounts(Grants(max, attempts[..m]), attempts[m] - WINDOW_MS, attempts[m]);
  }

  /** Under a monotone clock no closed 60-second interval holds more than max grants. */
  lemma WindowBound(max: int, attempts: seq<int>, s: int)
    requires max >= 0 && Ordered(attempts)
    ensures Within(Granted(max, attempts), s, s + 60_000) <= max
  {
    DecisionsAgree(max, attempts);
    FullHistoryBound(max, attempts, s);
  }
}
