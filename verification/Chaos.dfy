/** Key-derived padding and layer order. */
module Chaos {
  import opened Wrappers
  import opened Bytes
  import opened Encoding
  import opened Primitives
  import opened Swapping

  datatype PaddingError = HeaderMissing | LengthMismatch | BoundsInvalid

  // ---------- Padding ----------

  function PadLength(slot: Slot): (n: nat)
    ensures 16 <= n <= 271
  {
    hide Xor;
    var salt := slot.Salt();
    16 + Xor(Xor(salt[0], salt[1]), salt[2]) % 257
  }

  function SuffixLength(slot: Slot): (n: nat)
    ensures 8 <= n <= 127
  {
    hide Xor;
    var salt := slot.Salt();
    8 + Xor(salt[3], salt[4]) % 120
  }

  /** A source of random bytes: byte i of draw k. */
  type Noise = (nat, nat) -> byte

  function RandomBytes(noise: Noise, draw: nat, n: nat): (r: bytes)
    ensures |r| == n
  {
    seq<byte>(n, i requires 0 <= i < n => noise(draw, i))
  }

  function Pad(body: bytes, slot: Slot, noise: Noise): (r: bytes)
    ensures |r| == 4 + PadLength(slot) + |body| + SuffixLength(slot)
  {
    var prefix := RandomBytes(noise, 0, PadLength(slot));
    var suffix := RandomBytes(noise, 1, SuffixLength(slot));
    WriteU16(|prefix|) + WriteU16(|suffix|) + prefix + body + suffix
  }

  function Strip(padded: bytes, slot: Slot): Result<bytes, PaddingError> {
    if |padded| < 4 then Err(HeaderMissing)
    else
      var prefixLen, suffixLen := ReadU16(padded), ReadU16(padded[2..]);
      if prefixLen != PadLength(slot) || suffixLen != SuffixLength(slot) then Err(LengthMismatch)
      else
        var bodyStart, bodyEnd := 4 + prefixLen, |padded| - suffixLen;
        if bodyStart > bodyEnd then Err(BoundsInvalid)
        else Ok(padded[bodyStart..bodyEnd])
  }

  /** Stripping undoes padding, whatever the random bytes. */
  lemma PaddingRoundTrip(body: bytes, slot: Slot, noise: Noise)
    ensures Strip(Pad(body, slot, noise), slot) == Ok(body)
  {
    hide PadLength, SuffixLength;
    var m, n := PadLength(slot), SuffixLength(slot);
    var prefix, suffix := RandomBytes(noise, 0, m), RandomBytes(noise, 1, n);
    var padded := Pad(body, slot, noise);
    U16RoundTrip(m, WriteU16(n) + prefix + body + suffix);
    assert padded == WriteU16(m) + (WriteU16(n) + prefix + body + suffix);
    U16RoundTrip(n, prefix + body + suffix);
    assert padded[2..] == WriteU16(n) + (prefix + body + suffix);
    assert padded[4 + m..|padded| - n] == body;
  }

  /** Both lengths are drawn from the salt of the message: 256 prefix lengths and 120 suffix lengths can occur. */
  lemma LengthsFromSalt(slot: Slot)
    ensures PadLength(slot) == 16 + Xor(Xor(slot.Salt()[0], slot.Salt()[1]), slot.Salt()[2])
    ensures SuffixLength(slot) == 8 + Xor(slot.Salt()[3], slot.Salt()[4]) % 120
  {
    hide Xor;
  }

  /** The padded form: both lengths big-endian, random bytes, the body, and random bytes again. */
  lemma PaddedLayout(body: bytes, slot: Slot, noise: Noise)
    ensures
      var padded := Pad(body, slot, noise);
      var m, n := PadLength(slot), SuffixLength(slot);
      && |padded| == 4 + m + |body| + n
      && padded[..4] == [m / 256, m % 256, n / 256, n % 256]
      && (forall i :: 0 <= i < m ==> padded[4 + i] == noise(0, i))
      && padded[4 + m..4 + m + |body|] == body
      && (forall i :: 0 <= i < n ==> padded[4 + m + |body| + i] == noise(1, i))
  {
    hide PadLength, SuffixLength;
    var m, n := PadLength(slot), SuffixLength(slot);
    var prefix, suffix := RandomBytes(noise, 0, m), RandomBytes(noise, 1, n);
    var padded := Pad(body, slot, noise);
    assert padded == (WriteU16(m) + WriteU16(n)) + (prefix + (body + suffix));
    assert padded[4..] == prefix + (body + suffix);
    assert padded[4 + m..] == body + suffix;
    forall i | 0 <= i < m ensures padded[4 + i] == noise(0, i) {
      assert padded[4..][i] == prefix[i];
    }
    forall i | 0 <= i < n ensures padded[4 + m + |body| + i] == noise(1, i) {
      assert padded[4 + m..][|body| + i] == suffix[i];
    }
  }

  /** Stripping accepts exactly what has the key's two lengths in its header and around its body. */
  lemma StripsExactly(padded: bytes, slot: Slot, body: bytes)
    ensures Strip(padded, slot) == Ok(body) <==>
      && |padded| == 4 + PadLength(slot) + |body| + SuffixLength(slot)
      && 256 * padded[0] as int + padded[1] as int == PadLength(slot)
      && 256 * padded[2] as int + padded[3] as int == SuffixLength(slot)
      && padded[4 + PadLength(slot)..4 + PadLength(slot) + |body|] == body
  {
    hide PadLength, SuffixLength;
  }

  // ---------- The layer order ----------

  /** Exchanges positions i, i - 1, ..., 1 with positions drawn from the seed. */
  function ShuffleFrom<T>(items: seq<T>, seed: Digest, i: nat): (r: seq<T>)
    requires i < |items| || i == 0
    ensures |r| == |items|
    decreases i, items, seed
  {
    if i == 0 then items
    else ShuffleFrom(Swap(items, i, seed[i % |seed|] as int % (i + 1)), seed, i - 1)
  }

  function Shuffled<T>(items: seq<T>, seed: Digest): (r: seq<T>)
    ensures |r| == |items|
  {
    ShuffleFrom(items, seed, if items == [] then 0 else |items| - 1)
  }

  lemma {:induction false} ShufflePermutes<T>(items: seq<T>, seed: Digest, i: nat)
    requires i < |items| || i == 0
    ensures multiset(ShuffleFrom(items, seed, i)) == multiset(items)
    decreases i
  {
    if i > 0 {
      var j := seed[i % |seed|] as int % (i + 1);
      ShufflePermutes(Swap(items, i, j), seed, i - 1);
      assert multiset(Swap(items, i, j)) == multiset(items);
    }
  }

  /** The derived order holds the same items as often as before. */
  lemma OrderPermutes<T>(items: seq<T>, seed: Digest)
    ensures multiset(Shuffled(items, seed)) == multiset(items)
  {
    ShufflePermutes(items, seed, if items == [] then 0 else |items| - 1);
  }

  /** Two seed bytes choose among all six orders of three items. */
  lemma ThreeShuffled<T>(a: T, b: T, c: T, seed: Digest)
    ensures Shuffled([a, b, c], seed) ==
      match (seed[2] as int % 3, seed[1] as int % 2)
      case (2, 1) => [a, b, c]
      case (2, _) => [b, a, c]
      case (1, 1) => [a, c, b]
      case (1, _) => [c, a, b]
      case (_, 1) => [c, b, a]
      case (_, _) => [b, c, a]
  {
    var j2, j1 := seed[2] as int % 3, seed[1] as int % 2;
    var items := [a, b, c];
    var once := Swap(items, 2, j2);
    ShuffleStep(items, seed, 2);
    ShuffleStep(once, seed, 1);
    assert once == if j2 == 2 then [a, b, c] else if j2 == 1 then [a, c, b] else [c, b, a];
  }

  /** One seed byte chooses between the two orders of two items. */
  lemma TwoShuffled<T>(a: T, b: T, seed: Digest)
    ensures Shuffled([a, b], seed) == if seed[1] as int % 2 == 1 then [a, b] else [b, a]
    ensures Shuffled([a], seed) == [a]
  {
    ShuffleStep([a, b], seed, 1);
  }

  lemma ShuffleStep<T>(items: seq<T>, seed: Digest, i: nat)
    requires 0 < i < |items|
    ensures ShuffleFrom(items, seed, i) == ShuffleFrom(Swap(items, i, seed[i % |seed|] as int % (i + 1)), seed, i - 1)
  {
  }

  method DeriveShuffledOrder<T(0)>(items: seq<T>, seed: Digest) returns (order: seq<T>)
    ensures order == Shuffled(items, seed)
  {
    hide Swap, ShuffleFrom;
    if items == [] {
      NoMoreSteps(items, seed);
      return items;
    }
    var arr := new T[|items|](i requires 0 <= i < |items| => items[i]);
    assert arr[..] == items;
    for i := |items| - 1 downto 0
      invariant ShuffleFrom(arr[..], seed, i) == Shuffled(items, seed)
    {
      ShuffleStep(arr[..], seed, i + 1);
      var j := seed[(i + 1) % |seed|] as int % (i + 2);
      SwapInPlace(arr, i + 1, j);
    }
    order := arr[..];
    NoMoreSteps(order, seed);
  }

  lemma NoMoreSteps<T>(items: seq<T>, seed: Digest)
    ensures ShuffleFrom(items, seed, 0) == items
  {
  }
}
