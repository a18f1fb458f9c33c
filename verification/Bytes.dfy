/** Bytes, and the bitwise view of them. */
module Bytes {

  type byte = x: int | 0 <= x < 256

  type bytes = seq<byte>

  /** A byte as its eight bits, most significant first. */
  datatype Bits = Bits(b7: bool, b6: bool, b5: bool, b4: bool, b3: bool, b2: bool, b1: bool, b0: bool)

  const ZERO := Bits(false, false, false, false, false, false, false, false)

  function Exclusive(a: Bits, b: Bits): Bits {
    Bits(a.b7 != b.b7, a.b6 != b.b6, a.b5 != b.b5, a.b4 != b.b4,
         a.b3 != b.b3, a.b2 != b.b2, a.b1 != b.b1, a.b0 != b.b0)
  }

  /** y followed by one more binary digit. */
  function Push(y: nat, b: bool): nat {
    2 * y + if b then 1 else 0
  }

  function Odd(x: nat): bool {
    x % 2 == 1
  }

  function OfBits(a: Bits): byte {
    Push(Push(Push(Push(Push(Push(Push(Push(0, a.b7), a.b6), a.b5), a.b4), a.b3), a.b2), a.b1), a.b0)
  }

  function ToBits(x: byte): Bits {
    var x1 := x / 2; var x2 := x1 / 2; var x3 := x2 / 2; var x4 := x3 / 2;
    var x5 := x4 / 2; var x6 := x5 / 2; var x7 := x6 / 2;
    Bits(Odd(x7), Odd(x6), Odd(x5), Odd(x4), Odd(x3), Odd(x2), Odd(x1), Odd(x))
  }

  lemma PushPop(y: nat, b: bool)
    ensures Odd(Push(y, b)) == b && Push(y, b) / 2 == y
  {
  }

  lemma PopPush(x: nat)
    ensures Push(x / 2, Odd(x)) == x
  {
  }

  lemma BitsRoundTrip(a: Bits)
    ensures ToBits(OfBits(a)) == a
  {
    hide Push, Odd;
    var x7 := Push(0, a.b7); PushPop(0, a.b7);
    var x6 := Push(x7, a.b6); PushPop(x7, a.b6);
    var x5 := Push(x6, a.b5); PushPop(x6, a.b5);
    var x4 := Push(x5, a.b4); PushPop(x5, a.b4);
    var x3 := Push(x4, a.b3); PushPop(x4, a.b3);
    var x2 := Push(x3, a.b2); PushPop(x3, a.b2);
    var x1 := Push(x2, a.b1); PushPop(x2, a.b1);
    PushPop(x1, a.b0);
  }

  lemma ByteRoundTrip(x: byte)
    ensures OfBits(ToBits(x)) == x
  {
    hide Push, Odd;
    var x1 := x / 2; var x2 := x1 / 2; var x3 := x2 / 2; var x4 := x3 / 2;
    var x5 := x4 / 2; var x6 := x5 / 2; var x7 := x6 / 2;
    PopPush(x7); PopPush(x6); PopPush(x5); PopPush(x4); PopPush(x3); PopPush(x2); PopPush(x1); PopPush(x);
  }

  /** JavaScript's `^` on bytes. */
  function Xor(a: byte, b: byte): byte {
    OfBits(Exclusive(ToBits(a), ToBits(b)))
  }

  lemma XorBits(a: byte, b: byte)
    ensures ToBits(Xor(a, b)) == Exclusive(ToBits(a), ToBits(b))
  {
    hide ToBits, OfBits, Exclusive;
    BitsRoundTrip(Exclusive(ToBits(a), ToBits(b)));
  }

  lemma XorCommutative(a: byte, b: byte)
    ensures Xor(a, b) == Xor(b, a)
  {
    hide ToBits, OfBits;
    assert Exclusive(ToBits(a), ToBits(b)) == Exclusive(ToBits(b), ToBits(a));
  }

  lemma XorZero(a: byte)
    ensures Xor(a, 0) == a
  {
    ZeroBits();
    ByteRoundTrip(a);
    hide ToBits, OfBits;
    assert Exclusive(ToBits(a), ZERO) == ToBits(a);
  }

  lemma ZeroBits()
    ensures ToBits(0) == ZERO
  {
  }

  /** Masking twice with the same byte restores the first. */
  lemma XorCancel(a: byte, b: byte)
    ensures Xor(Xor(a, b), b) == a
  {
    XorBits(a, b);
    ByteRoundTrip(a);
    hide ToBits, OfBits;
    assert Exclusive(Exclusive(ToBits(a), ToBits(b)), ToBits(b)) == ToBits(a);
  }

  lemma XorAssociative(a: byte, b: byte, c: byte)
    ensures Xor(Xor(a, b), c) == Xor(a, Xor(b, c))
  {
    XorBits(a, b);
    XorBits(b, c);
    ExclusiveAssociative(ToBits(a), ToBits(b), ToBits(c));
    hide ToBits, OfBits, Exclusive;
  }

  lemma ExclusiveAssociative(a: Bits, b: Bits, c: Bits)
    ensures Exclusive(Exclusive(a, b), c) == Exclusive(a, Exclusive(b, c))
  {
  }

  /** JavaScript's `^` on numbers of any size, byte by byte. */
  function XorNumbers(a: nat, b: nat): nat
    decreases a + b
  {
    if a < 256 && b < 256 then Xor(a, b) else 256 * XorNumbers(a / 256, b / 256) + Xor(a % 256, b % 256)
  }

  /** It is 0 on equal numbers only, and beyond a byte when just one number is. */
  lemma {:induction false} XorNumbersRange(a: nat, b: nat)
    ensures XorNumbers(a, b) == 0 <==> a == b
    ensures (a < 256) != (b < 256) ==> XorNumbers(a, b) >= 256
    decreases a + b
  {
    hide Xor;
    XorZeroExactly(a % 256, b % 256);
    if a >= 256 || b >= 256 {
      XorNumbersRange(a / 256, b / 256);
    }
  }

  lemma XorZeroExactly(a: byte, b: byte)
    ensures Xor(a, b) == 0 <==> a == b
  {
    ZeroBits();
    XorBits(a, b);
    ByteRoundTrip(a);
    ByteRoundTrip(b);
    hide ToBits, OfBits;
    assert Exclusive(ToBits(a), ToBits(b)) == ZERO <==> ToBits(a) == ToBits(b);
    ByteRoundTrip(Xor(a, b));
    ByteRoundTrip(0);
  }
}
