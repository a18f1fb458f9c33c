/** The rotating KEM key of the server. */
module KeyRotation {
  import opened Wrappers
  import opened Bytes
  import opened Protocol

  datatype RotatingKeys = RotatingKeys(pair: KeyPair, rotatedAt: int)

  /** The current and previous key, and how many pairs the generator has produced. */
  datatype Rotation = Rotation(current: RotatingKeys, previous: Option<RotatingKeys>, generated: nat)

  type Generator = nat -> KeyPair

  function Initial(gen: Generator, now: int): Rotation {
    Rotation(RotatingKeys(gen(0), now), None, 1)
  }

  function Rotated(gen: Generator, r: Rotation, now: int): Rotation {
    Rotation(RotatingKeys(gen(r.generated), now), Some(r.current), r.generated + 1)
  }

  function Activated(gen: Generator, r: Rotation, rotateAfterMs: int, now: int): Rotation {
    if now - r.current.rotatedAt >= rotateAfterMs then Rotated(gen, r, now) else r
  }

  /** The key for a public key: the current one, or the previous one within the grace period. */
  function Resolved(r: Rotation, publicKey: bytes, graceMs: int, now: int): Option<KeyPair> {
    if r.current.pair.publicKey == publicKey then Some(r.current.pair)
    else if r.previous.Some? && r.previous.value.pair.publicKey == publicKey && now - r.current.rotatedAt <= graceMs
    then Some(r.previous.value.pair)
    else None
  }

  class KeyRotationManager {
    const gen: Generator
    const rotateAfterMs: int
    const graceMs: int
    var current: RotatingKeys
    var previous: Option<RotatingKeys>
    var generated: nat

    function View(): Rotation
      reads this
    {
      Rotation(current, previous, generated)
    }

    constructor (gen: Generator, rotateAfterMs: int, graceMs: int, now: int)
      ensures this.gen == gen && this.rotateAfterMs == rotateAfterMs && this.graceMs == graceMs
      ensures View() == Initial(gen, now) && FromGenerator(gen, View())
    {
      this.gen := gen;
      this.rotateAfterMs := rotateAfterMs;
      this.graceMs := graceMs;
      current := RotatingKeys(gen(0), now);
      previous := None;
      generated := 1;
    }

    method Rotate(now: int) returns (keys: RotatingKeys)
      modifies this
      ensures View() == Rotated(gen, old(View()), now) && keys == current
      ensures current == RotatingKeys(gen(old(generated)), now) && previous == Some(old(current)) && generated == old(generated) + 1
      ensures old(FromGenerator(gen, View())) ==> FromGenerator(gen, View())
    {
      previous := Some(current);
      current := RotatingKeys(gen(generated), now);
      generated := generated + 1;
      keys := current;
    }

    /** The key handed out is younger than its lifetime or made just now, and it changes exactly when the old one has reached that age. */
    method GetActiveKeys(now: int) returns (keys: RotatingKeys)
      modifies this
      ensures View() == Activated(gen, old(View()), rotateAfterMs, now) && keys == current
      ensures now - keys.rotatedAt < rotateAfterMs || keys.rotatedAt == now
      ensures now - old(current).rotatedAt < rotateAfterMs <==> generated == old(generated)
      ensures generated == old(generated) ==> View() == old(View())
      ensures generated != old(generated) ==>
        generated == old(generated) + 1 && keys == RotatingKeys(gen(old(generated)), now) && previous == Some(old(current))
      ensures old(FromGenerator(gen, View())) ==> FromGenerator(gen, View())
    {
      if now - current.rotatedAt >= rotateAfterMs {
        var rotated := Rotate(now);
      }
      keys := current;
    }

    /** Of all pairs ever generated the latest resolves, and the one before for the grace period. */
    method ResolveByPublicKey(publicKey: bytes, now: int) returns (r: Option<KeyPair>)
      ensures r == Resolved(View(), publicKey, graceMs, now)
      ensures r.Some? ==> r.value.publicKey == publicKey
      ensures FromGenerator(gen, View()) && Unrepeated(gen) ==>
        forall k: nat :: gen(k).publicKey == publicKey ==>
          r == if k == generated - 1 || (k == generated - 2 && now - current.rotatedAt <= graceMs) then Some(gen(k)) else None
    {
      if current.pair.publicKey == publicKey {
        return Some(current.pair);
      }
      if previous.Some? && previous.value.pair.publicKey == publicKey {
        var age := now - current.rotatedAt;
        if age <= graceMs {
          return Some(previous.value.pair);
        }
      }
      r := None;
    }
  }

  /** The current pair is the last generated one, the previous pair the one before. */
  ghost predicate FromGenerator(gen: Generator, r: Rotation) {
    && r.generated >= 1 && r.current.pair == gen(r.generated - 1)
    && (r.previous.Some? <==> r.generated >= 2)
    && (r.previous.Some? ==> r.previous.value.pair == gen(r.generated - 2))
  }

  /** Different pairs have different public keys. */
  ghost predicate Unrepeated(gen: Generator) {
    forall i: nat, j: nat :: i != j ==> gen(i).publicKey != gen(j).publicKey
  }

  /** The state of the keys after asking for the active one at these times, in order. */
  function AskedAt(gen: Generator, start: int, rotateAfterMs: int, times: seq<int>): Rotation {
    if times == [] then Initial(gen, start)
    else Activated(gen, AskedAt(gen, start, rotateAfterMs, times[..|times| - 1]), rotateAfterMs, times[|times| - 1])
  }

  /**
   * Asking at times that never go back, two calls get the same pair exactly when the later one
   * comes within the pair's lifetime, counted from when it was made, which is no later than the first call.
   */
  lemma {:induction false} SameKeyWithinLifetime(gen: Generator, start: int, rotateAfterMs: int, times: seq<int>, i: nat)
    requires Unrepeated(gen) && i < |times|
    requires (forall j :: 0 <= j < |times| ==> start <= times[j]) && forall j, k :: 0 <= j < k < |times| ==> times[j] <= times[k]
    ensures
      var first, last := AskedAt(gen, start, rotateAfterMs, times[..i + 1]), AskedAt(gen, start, rotateAfterMs, times);
      && first.current.rotatedAt <= times[i] && first.generated <= last.generated
      && FromGenerator(gen, first) && FromGenerator(gen, last)
      && (last.generated == first.generated ==> last == first)
      && (last.current.pair == first.current.pair <==>
            i == |times| - 1 || times[|times| - 1] - first.current.rotatedAt < rotateAfterMs)
    decreases |times|
  {
    var n := |times| - 1;
    AskedFromGenerator(gen, start, rotateAfterMs, times);
    AskedFromGenerator(gen, start, rotateAfterMs, times[..i + 1]);
    if i < n {
      assert times[..n][..i + 1] == times[..i + 1];
      SameKeyWithinLifetime(gen, start, rotateAfterMs, times[..n], i);
    } else {
      assert times[..i + 1] == times;
    }
  }

  lemma {:induction false} AskedFromGenerator(gen: Generator, start: int, rotateAfterMs: int, times: seq<int>)
    requires forall j :: 0 <= j < |times| ==> start <= times[j]
    requires forall j, k :: 0 <= j < k < |times| ==> times[j] <= times[k]
    ensures
      var r := AskedAt(gen, start, rotateAfterMs, times);
      FromGenerator(gen, r) && r.current.rotatedAt <= if times == [] then start else times[|times| - 1]
    decreases |times|
  {
    if times != [] {
      AskedFromGenerator(gen, start, rotateAfterMs, times[..|times| - 1]);
    }
  }

  /** One rotation keeps the old key resolvable for the grace period, and a second one forgets it. */
  lemma RotationKeepsPrevious(gen: Generator, r: Rotation, now: int, graceMs: int, later: int)
    requires FromGenerator(gen, r) && now <= later
    requires Unrepeated(gen)
    ensures
      var once := Rotated(gen, r, now);
      && FromGenerator(gen, once)
      && Resolved(once, r.current.pair.publicKey, graceMs, later) == (if later - now <= graceMs then Some(r.current.pair) else None)
      && Resolved(Rotated(gen, once, now), r.current.pair.publicKey, graceMs, later) == None
  {
    var g := r.generated;
    assert gen(g - 1).publicKey != gen(g).publicKey;
    assert gen(g - 1).publicKey != gen(g + 1).publicKey;
  }
}
