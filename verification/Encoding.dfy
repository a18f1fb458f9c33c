/** Big-endian integers in buffers. */
module Encoding {
  import opened Bytes

  const U16_LIMIT := 0x1_0000
  const U32_LIMIT := 0x1_0000_0000

  function WriteU16(n: nat): (b: bytes)
    requires n < U16_LIMIT
    ensures |b| == 2
  {
    [n / 256, n % 256]
  }

  function ReadU16(b: bytes): nat
    requires |b| >= 2
  {
    256 * b[0] as int + b[1] as int
  }

  function WriteU32(n: nat): (b: bytes)
    requires n < U32_LIMIT
    ensures |b| == 4
  {
    [n / 0x100_0000, n / 0x1_0000 % 256, n / 256 % 256, n % 256]
  }

  function ReadU32(b: bytes): (n: nat)
    requires |b| >= 4
    ensures n < U32_LIMIT
  {
    256 * (256 * (256 * b[0] as int + b[1] as int) + b[2] as int) + b[3] as int
  }

  lemma U16RoundTrip(n: nat, rest: bytes)
    requires n < U16_LIMIT
    ensures ReadU16(WriteU16(n) + rest) == n
  {
  }

  lemma U32RoundTrip(n: nat, rest: bytes)
    requires n < U32_LIMIT
    ensures ReadU32(WriteU32(n) + rest) == n
  {
    var b := WriteU32(n) + rest;
    var q1 := n / 256;
    var q2 := q1 / 256;
    assert n / 0x1_0000 == q2 && n / 0x100_0000 == q2 / 256;
    assert 256 * b[0] as int + b[1] as int == q2;
    assert 256 * q2 + b[2] as int == q1;
  }

  /** One sequence of bytes comes before another at the first position where they differ. */
  ghost predicate Precedes(a: bytes, b: bytes) {
    |a| == |b| && exists i :: 0 <= i < |a| && a[..i] == b[..i] && a[i] < b[i]
  }

  /** The most significant byte comes first: bytes are ordered as the numbers are. */
  lemma U16Ordered(m: nat, n: nat)
    requires m < n < U16_LIMIT
    ensures Precedes(WriteU16(m), WriteU16(n))
  {
    var a, b := WriteU16(m), WriteU16(n);
    var i := if m / 256 < n / 256 then 0 else 1;
    assert a[..i] == b[..i] && a[i] < b[i];
  }

  lemma U32Ordered(m: nat, n: nat)
    requires m < n < U32_LIMIT
    ensures Precedes(WriteU32(m), WriteU32(n))
  {
    var a, b := WriteU32(m), WriteU32(n);
    U32RoundTrip(m, []);
    U32RoundTrip(n, []);
    assert a + [] == a && b + [] == b;
    var i := if a[0] != b[0] then 0 else if a[1] != b[1] then 1 else if a[2] != b[2] then 2 else 3;
    assert a[..i] == b[..i] && a[i] < b[i];
  }
}
