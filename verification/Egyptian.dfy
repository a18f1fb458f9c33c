/** The keyed substitution box and the cartouche identity envelope. */
module Egyptian {
  import opened Wrappers
  import opened Bytes
  import opened Encoding
  import opened Primitives
  import opened Swapping

  const MAX_CARTOUCHE_HEADER := 4096

  datatype CartoucheError = HeaderOutOfRange | FrameTooShort | InvalidHeaderLength | MalformedHeader | SealViolated

  // ---------- The substitution box ----------

  /** The key schedule from step i on. */
  function Schedule(key: Digest, s: bytes, i: nat, j: nat): (r: bytes)
    requires |s| == 256 && i <= 256
    ensures |r| == 256
    decreases 256 - i, s, key
  {
    if i == 256 then s
    else
      var k := (j + s[i] as int + key[i % |key|] as int) % 256;
      Schedule(key, Swap(s, i, k), i + 1, k)
  }

  function Identity(): (s: bytes)
    ensures |s| == 256 && forall i :: 0 <= i < 256 ==> s[i] == i
  {
    seq(256, i requires 0 <= i < 256 => i)
  }

  function Sbox(key: Digest): (s: bytes)
    ensures |s| == 256
  {
    Schedule(key, Identity(), 0, 0)
  }

  /** Every byte occurs exactly once. */
  ghost predicate IsPermutation(s: bytes) {
    && |s| == 256
    && (forall i, j :: 0 <= i < j < 256 ==> s[i] != s[j])
    && (forall v: byte :: v in s)
  }

  lemma SwapPermutes(s: bytes, i: nat, j: nat)
    requires IsPermutation(s) && i < 256 && j < 256
    ensures IsPermutation(Swap(s, i, j))
  {
    var r := Swap(s, i, j);
    forall v: byte ensures v in r {
      assert v in s;
      var k :| 0 <= k < 256 && s[k] == v;
      assert r[if k == i then j else if k == j then i else k] == v;
    }
  }

  lemma {:induction false} SchedulePermutes(key: Digest, s: bytes, i: nat, j: nat)
    requires |s| == 256 && IsPermutation(s) && i <= 256
    ensures IsPermutation(Schedule(key, s, i, j))
    decreases 256 - i
  {
    hide Swap, IsPermutation;
    if i < 256 {
      var k := (j + s[i] as int + key[i % |key|] as int) % 256;
      SwapPermutes(s, i, k);
      SchedulePermutes(key, Swap(s, i, k), i + 1, k);
    }
  }

  /** The substitution box of every key is a permutation of the bytes. */
  lemma SboxPermutes(key: Digest)
    ensures IsPermutation(Sbox(key))
  {
    hide Schedule;
    forall v: byte ensures v in Identity() {
      assert Identity()[v] == v;
    }
    SchedulePermutes(key, Identity(), 0, 0);
  }

  /** The box after the exchange of two positions. */
  ghost predicate Exchanged(before: bytes, after: bytes, i: nat, j: nat) {
    && |before| == 256 == |after| && i < 256 && j < 256
    && after[i] == before[j] && after[j] == before[i]
    && forall p :: 0 <= p < 256 && p != i && p != j ==> after[p] == before[p]
  }

  /**
   * From the box that maps every byte to itself, step i moves the second position on by the
   * entry at i and by byte i of the key, round after round, and exchanges it with position i.
   */
  ghost predicate KeyedSwaps(key: Digest, boxes: seq<bytes>, js: seq<nat>, steps: nat) {
    && |boxes| == steps + 1 == |js| && steps <= 256
    && |boxes[0]| == 256 && (forall p :: 0 <= p < 256 ==> boxes[0][p] == p) && js[0] == 0
    && forall i :: 0 <= i < steps ==>
         Exchanged(boxes[i], boxes[i + 1], i, js[i + 1]) && js[i + 1] == (js[i] + boxes[i][i] as int + key[i % 32] as int) % 256
  }

  method BuildHieroglyphSbox(key: Digest) returns (sbox: array<byte>)
    ensures sbox[..] == Sbox(key) && fresh(sbox)
    ensures exists boxes, js :: KeyedSwaps(key, boxes, js, 256) && sbox[..] == boxes[256]
  {
    hide KeyedSwaps;
    SboxSwaps(key);
    sbox := new byte[256](_ => 0);
    for i := 0 to 256
      invariant forall k :: 0 <= k < i ==> sbox[k] == k
    {
      sbox[i] := i;
    }
    assert sbox[..] == Identity();
    ApplySchedule(key, sbox);
  }

  /** The exchanges of the key schedule, in place. */
  method ApplySchedule(key: Digest, sbox: array<byte>)
    requires sbox.Length == 256
    modifies sbox
    ensures sbox[..] == Schedule(key, old(sbox[..]), 0, 0)
  {
    hide Schedule, Swap;
    var j: nat := 0;
    for i := 0 to 256
      invariant Schedule(key, sbox[..], i, j) == Schedule(key, old(sbox[..]), 0, 0)
    {
      ScheduleStep(key, sbox[..], i, j);
      j := (j + sbox[i] as int + key[i % |key|] as int) % 256;
      SwapInPlace(sbox, i, j);
    }
    ScheduleStep(key, sbox[..], 256, j);
  }

  lemma ScheduleStep(key: Digest, s: bytes, i: nat, j: nat)
    requires |s| == 256 && i <= 256
    ensures Schedule(key, s, i, j) ==
      if i == 256 then s
      else var k := (j + s[i] as int + key[i % |key|] as int) % 256; Schedule(key, Swap(s, i, k), i + 1, k)
  {
  }

  /** However far the exchanges have gone, the rest of the schedule continues them. */
  lemma {:induction false} ScheduleSwaps(key: Digest, boxes: seq<bytes>, js: seq<nat>, i: nat)
    requires KeyedSwaps(key, boxes, js, i) && |boxes[i]| == 256
    ensures exists all, ks :: KeyedSwaps(key, all, ks, 256) && all[256] == Schedule(key, boxes[i], i, js[i])
    decreases 256 - i
  {
    assert |boxes| == i + 1 == |js|;
    hide KeyedSwaps, Swap;
    if i < 256 {
      var k := (js[i] + boxes[i][i] as int + key[i % 32] as int) % 256;
      var box := Swap(boxes[i], i, k);
      SwapExchanges(boxes[i], i, k);
      OneMoreSwap(key, boxes, js, i, box, k);
      assert (boxes + [box])[i + 1] == box && (js + [k])[i + 1] == k;
      ScheduleSwaps(key, boxes + [box], js + [k], i + 1);
    }
  }

  /** The box of a key is what the exchanges make of the box that maps every byte to itself. */
  lemma SboxSwaps(key: Digest)
    ensures exists boxes, js :: KeyedSwaps(key, boxes, js, 256) && boxes[256] == Sbox(key)
  {
    hide Schedule;
    ScheduleSwaps(key, [Identity()], [0], 0);
  }

  lemma SwapExchanges(s: bytes, i: nat, j: nat)
    requires |s| == 256 && i < 256 && j < 256
    ensures Exchanged(s, Swap(s, i, j), i, j)
  {
  }

  lemma OneMoreSwap(key: Digest, boxes: seq<bytes>, js: seq<nat>, i: nat, box: bytes, j: nat)
    requires KeyedSwaps(key, boxes, js, i) && i < 256 && Exchanged(boxes[i], box, i, j)
    requires j == (js[i] + boxes[i][i] as int + key[i % 32] as int) % 256
    ensures KeyedSwaps(key, boxes + [box], js + [j], i + 1)
  {
    hide Exchanged;
  }

  // ---------- Substitution ----------

  function Substitute(data: bytes, sbox: bytes): (r: bytes)
    requires |sbox| == 256
    ensures |r| == |data|
  {
    seq(|data|, i requires 0 <= i < |data| => sbox[data[i]])
  }

  /** The last of the first n positions that holds v, or 0. */
  function LastIndex(sbox: bytes, v: byte, n: nat): (r: byte)
    requires n <= |sbox| == 256
    decreases n, v, sbox
  {
    if n == 0 then 0 else if sbox[n - 1] == v then n - 1 else LastIndex(sbox, v, n - 1)
  }

  function Unsubstitute(data: bytes, sbox: bytes): (r: bytes)
    requires |sbox| == 256
    ensures |r| == |data|
  {
    seq(|data|, i requires 0 <= i < |data| => LastIndex(sbox, data[i], 256))
  }

  lemma {:induction false} LastIndexFinds(sbox: bytes, k: nat, n: nat)
    requires n <= |sbox| == 256 && k < n
    requires forall i, j :: 0 <= i < j < 256 ==> sbox[i] != sbox[j]
    ensures LastIndex(sbox, sbox[k], n) == k
    decreases n
  {
    if k < n - 1 {
      LastIndexFinds(sbox, k, n - 1);
    }
  }

  lemma SubstitutionRoundTrip(data: bytes, key: Digest)
    ensures Unsubstitute(Substitute(data, Sbox(key)), Sbox(key)) == data
  {
    hide Schedule;
    SboxPermutes(key);
    var sbox := Sbox(key);
    forall i | 0 <= i < |data| ensures LastIndex(sbox, sbox[data[i]], 256) == data[i] {
      LastIndexFinds(sbox, data[i], 256);
    }
  }

  method HieroglyphEncipher(data: bytes, sbox: array<byte>) returns (out: bytes)
    requires sbox.Length == 256
    ensures out == Substitute(data, sbox[..])
    ensures |out| == |data| && forall i :: 0 <= i < |data| ==> out[i] == sbox[data[i]]
  {
    var buffer := new byte[|data|];
    for i := 0 to |data|
      invariant forall k :: 0 <= k < i ==> buffer[k] == sbox[data[k]]
    {
      buffer[i] := sbox[data[i]];
    }
    out := buffer[..];
  }

  method HieroglyphDecipher(data: bytes, sbox: array<byte>) returns (out: bytes)
    requires sbox.Length == 256
    ensures out == Unsubstitute(data, sbox[..])
    ensures |out| == |data| && (IsPermutation(sbox[..]) ==> forall i :: 0 <= i < |data| ==> sbox[out[i]] == data[i])
  {
    var inv := new byte[256](_ => 0);
    for i := 0 to 256
      invariant forall v: byte :: inv[v] == LastIndex(sbox[..], v, i)
    {
      inv[sbox[i]] := i;
    }
    var buffer := new byte[|data|];
    for i := 0 to |data|
      invariant forall v: byte :: inv[v] == LastIndex(sbox[..], v, 256)
      invariant forall k :: 0 <= k < i ==> buffer[k] == LastIndex(sbox[..], data[k], 256)
    {
      buffer[i] := inv[data[i]];
    }
    out := buffer[..];
    if IsPermutation(sbox[..]) {
      forall i | 0 <= i < |data| ensures sbox[out[i]] == data[i] {
        assert data[i] in sbox[..];
        var k :| 0 <= k < 256 && sbox[k] == data[i];
        LastIndexFinds(sbox[..], k, 256);
      }
    }
  }

  // ---------- The cartouche ----------

  function CartoucheSeal(p: Primitives, subject: string, correlationId: string, data: bytes, key: Digest): Digest {
    p.hmac(key, p.utf8("cartouche") + p.utf8(subject) + p.utf8(correlationId) + data)
  }

  function CartoucheHeader(p: Primitives, data: bytes, subject: string, correlationId: string, key: Digest): bytes {
    p.encodeHeader(Header(subject, correlationId, CartoucheSeal(p, subject, correlationId, data, key)))
  }

  function WrapCartouche(p: Primitives, data: bytes, subject: string, correlationId: string, key: Digest): Result<bytes, CartoucheError> {
    var header := CartoucheHeader(p, data, subject, correlationId, key);
    if |header| >= U16_LIMIT then Err(HeaderOutOfRange)
    else Ok(WriteU16(|header|) + header + data)
  }

  function UnwrapCartouche(p: Primitives, wrapped: bytes, key: Digest): Result<bytes, CartoucheError> {
    if |wrapped| < 2 then Err(FrameTooShort)
    else
      var headerLen := ReadU16(wrapped);
      if headerLen == 0 || headerLen > MAX_CARTOUCHE_HEADER || |wrapped| < 2 + headerLen then Err(InvalidHeaderLength)
      else
        var header := p.decodeHeader(wrapped[2..2 + headerLen]);
        var body := wrapped[2 + headerLen..];
        if header.None? then Err(MalformedHeader)
        else if header.value.seal != CartoucheSeal(p, header.value.subject, header.value.correlationId, body, key) then Err(SealViolated)
        else Ok(body)
  }

  /** Unwrapping undoes wrapping exactly for headers of at most 4096 bytes, though wrapping allows longer ones. */
  lemma CartoucheRoundTrip(p: Primitives, data: bytes, subject: string, correlationId: string, key: Digest)
    requires p.Sound() && WrapCartouche(p, data, subject, correlationId, key).Ok?
    ensures
      UnwrapCartouche(p, WrapCartouche(p, data, subject, correlationId, key).value, key) ==
        if |CartoucheHeader(p, data, subject, correlationId, key)| <= 4096 then Ok(data) else Err(InvalidHeaderLength)
  {
    var header := CartoucheHeader(p, data, subject, correlationId, key);
    var wrapped := WrapCartouche(p, data, subject, correlationId, key).value;
    U16RoundTrip(|header|, header + data);
    assert wrapped == WriteU16(|header|) + (header + data);
    assert wrapped[2..2 + |header|] == header;
    assert wrapped[2 + |header|..] == data;
  }

  /** The envelope: two length bytes, the header with subject, channel and seal, and the data; refused for a header over 65535 bytes. */
  lemma WrappedLayout(p: Primitives, data: bytes, subject: string, correlationId: string, key: Digest)
    ensures
      var seal := p.hmac(key, p.utf8("cartouche") + p.utf8(subject) + p.utf8(correlationId) + data);
      var header := p.encodeHeader(Header(subject, correlationId, seal));
      && CartoucheHeader(p, data, subject, correlationId, key) == header
      && WrapCartouche(p, data, subject, correlationId, key) ==
           if |header| > 65535 then Err(HeaderOutOfRange) else Ok([|header| / 256, |header| % 256] + header + data)
  {
  }

  /** Under the header made for some data another text is accepted exactly when the two digests are the same. */
  lemma CartoucheBinds(p: Primitives, data: bytes, other: bytes, subject: string, correlationId: string, key: Digest)
    requires p.Sound() && 0 < |CartoucheHeader(p, data, subject, correlationId, key)| <= 4096
    ensures
      var header := CartoucheHeader(p, data, subject, correlationId, key);
      var prefix := p.utf8("cartouche") + p.utf8(subject) + p.utf8(correlationId);
      UnwrapCartouche(p, WriteU16(|header|) + header + other, key) ==
        if p.hmac(key, prefix + data) == p.hmac(key, prefix + other) then Ok(other) else Err(SealViolated)
  {
    var header := CartoucheHeader(p, data, subject, correlationId, key);
    var wrapped := WriteU16(|header|) + header + other;
    U16RoundTrip(|header|, header + other);
    assert wrapped == WriteU16(|header|) + (header + other);
    assert wrapped[2..2 + |header|] == header && wrapped[2 + |header|..] == other;
  }

  /** An envelope yields exactly the text behind a header of 1 to 4096 bytes that carries its seal. */
  lemma UnwrapsExactly(p: Primitives, wrapped: bytes, key: Digest, body: bytes)
    ensures UnwrapCartouche(p, wrapped, key) == Ok(body) <==>
      && |wrapped| >= 2
      && var n := 256 * wrapped[0] as int + wrapped[1] as int;
      && 1 <= n <= 4096 && |wrapped| >= 2 + n && wrapped[2 + n..] == body
      && var header := p.decodeHeader(wrapped[2..2 + n]);
      && header.Some?
      && header.value.seal == p.hmac(key, p.utf8("cartouche") + p.utf8(header.value.subject) + p.utf8(header.value.correlationId) + body)
  {
  }
}
