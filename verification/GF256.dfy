/**
 * The field of section 4.2 of FIPS 197: multiplication by shift and reduce,
 * the powers of the generator 3, and the field laws.
 */
module GF256 {
  import opened Bytes
  import opened Cyclic
  import opened Fields

  // ---------- Shift and reduce, bit by bit ----------

  /** Multiplication by x modulo x^8 + x^4 + x^3 + x + 1. */
  function Double(a: Bits): Bits {
    Bits(a.b6, a.b5, a.b4, a.b3 != a.b7, a.b2 != a.b7, a.b1, a.b0 != a.b7, a.b7)
  }

  function Half(b: Bits): Bits {
    Bits(false, b.b7, b.b6, b.b5, b.b4, b.b3, b.b2, b.b1)
  }

  function Pick(a: Bits, b: Bits): Bits {
    if b.b0 then a else ZERO
  }

  /** The sum of a * x^i over the set bits i < n of b. */
  function Product(a: Bits, b: Bits, n: nat): Bits
    decreases n, a, b
  {
    if n == 0 then ZERO else Exclusive(Pick(a, b), Product(Double(a), Half(b), n - 1))
  }

  lemma ExclusiveSwap(a: Bits, b: Bits, c: Bits, d: Bits)
    ensures Exclusive(Exclusive(a, b), Exclusive(c, d)) == Exclusive(Exclusive(a, c), Exclusive(b, d))
  {
  }

  lemma ZeroNeutral(a: Bits)
    ensures Exclusive(a, ZERO) == a == Exclusive(ZERO, a)
  {
  }

  lemma DoubleLinear(a: Bits, c: Bits)
    ensures Double(Exclusive(a, c)) == Exclusive(Double(a), Double(c))
  {
  }

  lemma HalfLinear(b: Bits, d: Bits)
    ensures Half(Exclusive(b, d)) == Exclusive(Half(b), Half(d))
  {
  }

  lemma PickLinearLeft(a: Bits, c: Bits, b: Bits)
    ensures Pick(Exclusive(a, c), b) == Exclusive(Pick(a, b), Pick(c, b))
  {
  }

  lemma PickLinearRight(a: Bits, b: Bits, d: Bits)
    ensures Pick(a, Exclusive(b, d)) == Exclusive(Pick(a, b), Pick(a, d))
  {
  }

  lemma PickDouble(a: Bits, b: Bits)
    ensures Pick(Double(a), b) == Double(Pick(a, b))
  {
  }

  lemma {:induction false} ProductLinearLeft(a: Bits, c: Bits, b: Bits, n: nat)
    ensures Product(Exclusive(a, c), b, n) == Exclusive(Product(a, b, n), Product(c, b, n))
    decreases n
  {
    hide Exclusive, Double, Half, Pick;
    if n == 0 {
      ZeroNeutral(ZERO);
    } else {
      DoubleLinear(a, c);
      PickLinearLeft(a, c, b);
      ProductLinearLeft(Double(a), Double(c), Half(b), n - 1);
      ExclusiveSwap(Pick(a, b), Pick(c, b), Product(Double(a), Half(b), n - 1), Product(Double(c), Half(b), n - 1));
    }
  }

  lemma {:induction false} ProductLinearRight(a: Bits, b: Bits, d: Bits, n: nat)
    ensures Product(a, Exclusive(b, d), n) == Exclusive(Product(a, b, n), Product(a, d, n))
    decreases n
  {
    hide Exclusive, Double, Half, Pick;
    if n == 0 {
      ZeroNeutral(ZERO);
    } else {
      HalfLinear(b, d);
      PickLinearRight(a, b, d);
      ProductLinearRight(Double(a), Half(b), Half(d), n - 1);
      ExclusiveSwap(Pick(a, b), Pick(a, d), Product(Double(a), Half(b), n - 1), Product(Double(a), Half(d), n - 1));
    }
  }

  lemma {:induction false} ProductDoubleLeft(a: Bits, b: Bits, n: nat)
    ensures Product(Double(a), b, n) == Double(Product(a, b, n))
    decreases n
  {
    if n == 0 {
    } else {
      hide Exclusive, Double, Half, Pick;
      PickDouble(a, b);
      ProductDoubleLeft(Double(a), Half(b), n - 1);
      DoubleLinear(Pick(a, b), Product(Double(a), Half(b), n - 1));
    }
  }

  /** Bits n and above of b are clear. */
  predicate Below(b: Bits, n: nat)
    decreases n
  {
    if n == 0 then b == ZERO else Below(Half(b), n - 1)
  }

  lemma {:induction false} ProductTrim(a: Bits, b: Bits, n: nat)
    requires Below(b, n)
    ensures Product(a, b, n + 1) == Product(a, b, n)
    decreases n
  {
    if n == 0 {
      assert Product(Double(a), Half(b), 0) == ZERO;
    } else {
      hide Exclusive, Double, Half, Pick;
      ProductTrim(Double(a), Half(b), n - 1);
    }
  }

  lemma BelowSeven(b: Bits)
    requires !b.b7
    ensures Below(b, 7)
  {
    hide Half;
    var h1 := Half(b); HalfDigits(b);
    var h2 := Half(h1); HalfDigits(h1);
    var h3 := Half(h2); HalfDigits(h2);
    var h4 := Half(h3); HalfDigits(h3);
    var h5 := Half(h4); HalfDigits(h4);
    var h6 := Half(h5); HalfDigits(h5);
    HalfDigits(h6);
  }

  lemma HalfDigits(b: Bits)
    ensures Half(b) == Bits(false, b.b7, b.b6, b.b5, b.b4, b.b3, b.b2, b.b1)
  {
  }

  /** The low seven bits. */
  function Low(b: Bits): Bits { b.(b7 := false) }

  /** The highest bit. */
  function High(b: Bits): Bits { ZERO.(b7 := b.b7) }

  lemma LowHigh(b: Bits)
    ensures Exclusive(Low(b), High(b)) == b
  {
  }

  lemma ProductDoubleLow(a: Bits, b: Bits)
    requires !b.b7
    ensures Product(a, Double(b), 8) == Product(Double(a), b, 8)
  {
    assert Half(Double(b)) == b && Pick(a, Double(b)) == ZERO;
    hide Exclusive, Double, Half, Pick, Below;
    ZeroNeutral(Product(Double(a), b, 7));
    BelowSeven(b);
    ProductTrim(Double(a), b, 7);
  }

  /** x^8 is x^4 + x^3 + x + 1. */
  lemma DoubleEight(a: Bits)
    ensures
      var a1 := Double(a); var a3 := Double(Double(a1)); var a4 := Double(a3);
      Double(Double(Double(Double(a4)))) == Exclusive(a, Exclusive(a1, Exclusive(a3, a4)))
  {
    DoubleFour(a);
    DoubleFour(Double(Double(Double(Double(a)))));
    assert Double(a) == Bits(a.b6, a.b5, a.b4, a.b3 != a.b7, a.b2 != a.b7, a.b1, a.b0 != a.b7, a.b7);
    hide Double;
  }

  lemma DoubleFour(a: Bits)
    ensures Double(Double(Double(a))) ==
      Bits(a.b4, a.b3 != a.b7, (a.b2 != a.b7) != a.b6, (a.b1 != a.b6) != a.b5, (a.b0 != a.b7) != a.b5, a.b7 != a.b6, a.b6 != a.b5, a.b5)
    ensures Double(Double(Double(Double(a)))) ==
      Bits(a.b3 != a.b7, (a.b2 != a.b7) != a.b6, (a.b1 != a.b6) != a.b5, ((a.b0 != a.b7) != a.b5) != a.b4, (a.b7 != a.b6) != a.b4,
           a.b6 != a.b5, a.b5 != a.b4, a.b4)
  {
  }

  lemma ProductZero(a: Bits, n: nat)
    ensures Product(a, ZERO, n) == ZERO
    decreases n
  {
    if n > 0 {
      assert Half(ZERO) == ZERO && Pick(a, ZERO) == ZERO;
      ZeroNeutral(ZERO);
      ProductZero(Double(a), n - 1);
    }
  }

  lemma ProductStep(a: Bits, b: Bits, n: nat)
    requires n > 0
    ensures Product(a, b, n) == if b.b0 then Exclusive(a, Product(Double(a), Half(b), n - 1)) else Product(Double(a), Half(b), n - 1)
  {
    ZeroNeutral(Product(Double(a), Half(b), n - 1));
  }

  /** The factor 0x1b, which is x^8 reduced. */
  const REDUCTION := Bits(false, false, false, true, true, false, true, true)

  /** The element x. */
  const X := Bits(false, false, false, false, false, false, true, false)

  /** The factor 0x80, which is x^7. */
  const TOP := Bits(true, false, false, false, false, false, false, false)

  lemma ProductReduction(a: Bits)
    ensures
      var a1 := Double(a); var a3 := Double(Double(a1)); var a4 := Double(a3);
      Product(a, REDUCTION, 8) == Exclusive(a, Exclusive(a1, Exclusive(a3, a4)))
  {
    hide Exclusive, Double, Product;
    var a1 := Double(a); var a2 := Double(a1); var a3 := Double(a2); var a4 := Double(a3);
    var t1 := Half(REDUCTION); var t2 := Half(t1); var t3 := Half(t2); var t4 := Half(t3);
    ProductStep(a, REDUCTION, 8);
    ProductStep(a1, t1, 7);
    ProductStep(a2, t2, 6);
    ProductStep(a3, t3, 5);
    ProductStep(a4, t4, 4);
    ProductZero(Double(a4), 3);
    ZeroNeutral(a4);
  }

  lemma ProductTop(a: Bits)
    ensures Product(a, TOP, 8) == Double(Double(Double(Double(Double(Double(Double(a)))))))
  {
    hide Exclusive, Double, Product;
    var a1 := Double(a); var a2 := Double(a1); var a3 := Double(a2); var a4 := Double(a3);
    var a5 := Double(a4); var a6 := Double(a5); var a7 := Double(a6);
    var t1 := Half(TOP); var t2 := Half(t1); var t3 := Half(t2); var t4 := Half(t3);
    var t5 := Half(t4); var t6 := Half(t5); var t7 := Half(t6);
    ProductStep(a, TOP, 8);
    ProductStep(a1, t1, 7);
    ProductStep(a2, t2, 6);
    ProductStep(a3, t3, 5);
    ProductStep(a4, t4, 4);
    ProductStep(a5, t5, 3);
    ProductStep(a6, t6, 2);
    ProductStep(a7, t7, 1);
    ProductZero(Double(a7), 0);
    ZeroNeutral(a7);
  }

  lemma ProductDoubleHigh(a: Bits, b: Bits)
    requires b == High(b)
    ensures Product(a, Double(b), 8) == Product(Double(a), b, 8)
  {
    if !b.b7 {
      ProductDoubleLow(a, b);
    } else {
      assert b == TOP && Double(TOP) == REDUCTION;
      hide Exclusive, Double, Product;
      ProductReduction(a);
      ProductTop(Double(a));
      DoubleEight(a);
    }
  }

  /** Doubling either factor doubles the product. */
  lemma ProductDoubleRight(a: Bits, b: Bits)
    ensures Product(a, Double(b), 8) == Double(Product(a, b, 8))
  {
    LowHigh(b);
    ProductDoubleLow(a, Low(b));
    assert High(High(b)) == High(b);
    ProductDoubleHigh(a, High(b));
    hide *;
    DoubleLinear(Low(b), High(b));
    ProductLinearRight(a, Double(Low(b)), Double(High(b)), 8);
    ProductLinearRight(Double(a), Low(b), High(b), 8);
    ProductDoubleLeft(a, b, 8);
  }

  // ---------- The orbit of one under the generator ----------

  /** The element 1. */
  const ONE := Bits(false, false, false, false, false, false, false, true)

  /** The generator, x + 1. */
  const THREE := Bits(false, false, false, false, false, false, true, true)

  /** Multiplication by the generator. */
  function Triple(a: Bits): Bits {
    Exclusive(a, Double(a))
  }

  function Orbit(i: nat): Bits {
    if i == 0 then ONE else Triple(Orbit(i - 1))
  }

  lemma OrbitNext(i: nat)
    ensures Orbit(i + 1) == Triple(Orbit(i))
  {
  }

  lemma Cancel(a: Bits, b: Bits, c: Bits)
    ensures Exclusive(Exclusive(a, b), Exclusive(b, c)) == Exclusive(a, c)
  {
  }

  lemma FourTriples(p: Bits)
    ensures
      var p1 := Exclusive(p, Double(p)); var p2 := Exclusive(p1, Double(p1)); var p3 := Exclusive(p2, Double(p2));
      Exclusive(p3, Double(p3)) == Exclusive(p, Double(Double(Double(Double(p)))))
  {
    hide *;
    var d1 := Double(p); var d2 := Double(d1); var d3 := Double(d2); var d4 := Double(d3);
    DoubleLinear(p, d1);
    Cancel(p, d1, d2);
    var p2 := Exclusive(p, d2);
    DoubleLinear(p2, Double(p2));
    Cancel(p2, Double(p2), Double(Double(p2)));
    DoubleLinear(p, d2);
    DoubleLinear(d1, d3);
    Cancel(p, d2, d4);
  }

  /** Four more generators: 3^4 is x^4 + 1. */
  lemma OrbitQuad(i: nat)
    ensures Orbit(i + 4) == Exclusive(Orbit(i), Double(Double(Double(Double(Orbit(i))))))
  {
    FourTriples(Orbit(i));
    hide Orbit, Exclusive, Double;
    OrbitNext(i);
    OrbitNext(i + 1);
    OrbitNext(i + 2);
    OrbitNext(i + 3);
  }

  /** The 25th element of the orbit is x and the 15th is not 1; k is any exponent of 1. */
  lemma OrbitOfX(k: nat)
    requires Orbit(k) == ONE
    ensures Orbit(k + 25) == X && Orbit(k + 15) != ONE
  {
    hide Orbit;
    OrbitQuad(k);
    assert Orbit(k + 4) == Bits(false, false, false, true, false, false, false, true);
    OrbitQuad(k + 4);
    assert Orbit(k + 8) == Bits(false, false, false, true, true, false, true, false);
    OrbitQuad(k + 8);
    assert Orbit(k + 12) == Bits(true, false, true, false, false, false, false, true);
    OrbitNext(k + 12);
    assert Orbit(k + 13) == Bits(true, true, true, true, true, false, false, false);
    OrbitNext(k + 13);
    assert Orbit(k + 14) == Bits(false, false, false, true, false, false, true, true);
    OrbitNext(k + 14);
    assert Orbit(k + 15) == Bits(false, false, true, true, false, true, false, true);
    OrbitQuad(k + 12);
    assert Orbit(k + 16) == Bits(false, true, false, true, true, true, true, true);
    OrbitQuad(k + 16);
    assert Orbit(k + 20) == Bits(true, true, false, true, true, false, false, false);
    OrbitQuad(k + 20);
    assert Orbit(k + 24) == Bits(true, true, true, true, false, true, true, true);
    OrbitNext(k + 24);
  }

  /** Hence 25 steps are a doubling. */
  lemma {:induction false} OrbitDouble(i: nat)
    ensures Orbit(i + 25) == Double(Orbit(i))
  {
    if i == 0 {
      hide Orbit, Exclusive, Double;
      OrbitStart();
      OrbitOfX(0);
      assert X == Double(ONE) by { DoubleOne(); }
    } else {
      hide Orbit, Exclusive, Double;
      OrbitDouble(i - 1);
      OrbitNext(i - 1);
      OrbitNext(i + 24);
      DoubleLinear(Orbit(i - 1), Double(Orbit(i - 1)));
    }
  }

  lemma OrbitStart()
    ensures Orbit(0) == ONE
  {
  }

  lemma DoubleOne()
    ensures Double(ONE) == X
  {
  }

  /** The orbit closes after 255 steps, and not after 15, 51 or 85. */
  lemma OrbitOrder(k: nat)
    requires Orbit(k) == ONE
    ensures Orbit(k + 255) == ONE
    ensures Orbit(k + 15) != ONE && Orbit(k + 51) != ONE && Orbit(k + 85) != ONE
  {
    hide Orbit;
    OrbitOfX(k);
    OrbitDouble(k + 25);
    assert Orbit(k + 50) == Bits(false, false, false, false, false, true, false, false);
    OrbitNext(k + 50);
    assert Orbit(k + 51) == Bits(false, false, false, false, true, true, false, false);
    OrbitDouble(k + 50);
    assert Orbit(k + 75) == Bits(false, false, false, false, true, false, false, false);
    OrbitQuad(k + 75);
    assert Orbit(k + 79) == Bits(true, false, false, false, true, false, false, false);
    OrbitQuad(k + 79);
    assert Orbit(k + 83) == Bits(true, true, false, true, false, false, false, false);
    OrbitNext(k + 83);
    assert Orbit(k + 84) == Bits(false, true, true, false, true, false, true, true);
    OrbitNext(k + 84);
    assert Orbit(k + 85) == Bits(true, false, true, true, true, true, false, true);
    OrbitDouble(k + 75);
    assert Orbit(k + 100) == Bits(false, false, false, true, false, false, false, false);
    OrbitDouble(k + 100);
    assert Orbit(k + 125) == Bits(false, false, true, false, false, false, false, false);
    OrbitDouble(k + 125);
    assert Orbit(k + 150) == Bits(false, true, false, false, false, false, false, false);
    OrbitDouble(k + 150);
    assert Orbit(k + 175) == Bits(true, false, false, false, false, false, false, false);
    OrbitDouble(k + 175);
    assert Orbit(k + 200) == Bits(false, false, false, true, true, false, true, true);
    OrbitDouble(k + 200);
    assert Orbit(k + 225) == Bits(false, false, true, true, false, true, true, false);
    OrbitDouble(k + 225);
    assert Orbit(k + 250) == Bits(false, true, true, false, true, true, false, false);
    OrbitQuad(k + 250);
    assert Orbit(k + 254) == Bits(true, true, true, true, false, true, true, false);
    OrbitNext(k + 254);
  }

  // ---------- The field on bytes ----------

  /** The product of two bytes. */
  function Times(a: byte, b: byte): byte {
    OfBits(Product(ToBits(a), ToBits(b), 8))
  }

  /** The field of 256 elements. */
  const BYTES := Field(0 as byte, 1 as byte, Xor, Times)

  lemma TimesBits(a: byte, b: byte)
    ensures ToBits(Times(a, b)) == Product(ToBits(a), ToBits(b), 8)
  {
    hide ToBits, OfBits, Product;
    BitsRoundTrip(Product(ToBits(a), ToBits(b), 8));
  }

  lemma SmallBits()
    ensures ToBits(0) == ZERO && ToBits(1) == ONE && ToBits(3) == THREE
  {
  }

  lemma TimesThree(a: byte)
    ensures ToBits(Times(a, 3)) == Triple(ToBits(a))
  {
    hide ToBits, OfBits, Times, Product, Exclusive, Double;
    SmallBits();
    TimesBits(a, 3);
    var x := ToBits(a);
    ProductStep(x, THREE, 8);
    ProductStep(Double(x), Half(THREE), 7);
    ProductZero(Double(Double(x)), 6);
    ZeroNeutral(Double(x));
  }

  lemma TimesUnit(a: byte)
    ensures Times(a, 1) == a && Times(a, 0) == 0 && Times(0, a) == 0
  {
    hide ToBits, OfBits, Product, Exclusive, Double;
    SmallBits();
    ByteRoundTrip(0);
    ByteRoundTrip(a);
    var x := ToBits(a);
    ProductStep(x, ONE, 8);
    ProductZero(Double(x), 7);
    ProductZero(x, 8);
    ZeroNeutral(x);
    ZeroAbsorbs(x, 8);
  }

  lemma {:induction false} ZeroAbsorbs(b: Bits, n: nat)
    ensures Product(ZERO, b, n) == ZERO
    decreases n
  {
    if n > 0 {
      assert Double(ZERO) == ZERO;
      ZeroNeutral(ZERO);
      ZeroAbsorbs(Half(b), n - 1);
    }
  }

  /** Multiplying a product by the generator. */
  lemma TimesGenerator(a: byte, b: byte)
    ensures Times(a, Times(b, 3)) == Times(Times(a, b), 3)
  {
    hide ToBits, OfBits, Xor, Times, Exclusive, Double, Product;
    var x, y := ToBits(a), ToBits(b);
    TimesThree(b);
    TimesBits(a, b);
    TimesThree(Times(a, b));
    TimesBits(a, Times(b, 3));
    ProductLinearRight(x, y, Double(y), 8);
    ProductDoubleRight(x, y);
    ByteRoundTrip(Times(a, Times(b, 3)));
    ByteRoundTrip(Times(Times(a, b), 3));
  }

  lemma Distributive(a: byte, b: byte, c: byte)
    ensures Times(Xor(a, b), c) == Xor(Times(a, c), Times(b, c))
  {
    TimesBits(a, c);
    TimesBits(b, c);
    XorBits(a, b);
    hide ToBits, OfBits, Product, Exclusive;
    ProductLinearLeft(ToBits(a), ToBits(b), ToBits(c), 8);
  }

  lemma ByteGenerator()
    ensures Generator(BYTES, 3)
  {
    hide Xor, Times;
    forall a, b, c ensures Adds(BYTES, a, b, c) {
      XorCommutative(a, b);
      XorAssociative(a, b, c);
      XorZero(a);
      XorCommutative(a, 0);
      XorCancel(0, a);
    }
    forall a, b, c ensures Generates(BYTES, 3, a, b, c) {
      TimesUnit(a);
      TimesGenerator(a, b);
      Distributive(a, b, c);
    }
  }

  /** The powers of the generator are the orbit of one. */
  lemma {:induction false} PowerOrbit(i: nat)
    ensures ToBits(Power(BYTES, 3, i)) == Orbit(i)
  {
    hide ToBits, Times, Triple;
    if i == 0 {
      SmallBits();
    } else {
      PowerOrbit(i - 1);
      TimesThree(Power(BYTES, 3, i - 1));
    }
  }

  lemma ByteOrder()
    ensures FullOrder(BYTES, 3)
  {
    hide Power, Orbit, ToBits;
    SmallBits();
    OrbitStart();
    OrbitOrder(0);
    PowerOrbit(255);
    PowerOrbit(15);
    PowerOrbit(51);
    PowerOrbit(85);
    ByteRoundTrip(1);
    ByteRoundTrip(Power(BYTES, 3, 255));
  }

  function Range(n: nat): (r: set<byte>)
    requires n < 256
    ensures forall x :: x in r <==> 1 <= x <= n
    ensures |r| == n
  {
    if n == 0 then {} else Range(n - 1) + {n}
  }

  /** The generator 3 has full order among the 255 nonzero bytes. */
  lemma ByteGenerates()
    ensures Generator(BYTES, 3) && FullOrder(BYTES, 3) && Nonzeros(BYTES, Range(255))
  {
    ByteGenerator();
    ByteOrder();
    hide Generator, FullOrder, Range, Xor, Times;
  }

  /** Bytes under Xor and Times are a field. */
  lemma ByteField()
    ensures IsField(BYTES)
  {
    hide *;
    ByteGenerates();
    CyclicField(BYTES, 3, Range(255));
  }

  // ---------- Shift and reduce, as the loop ----------

  lemma HalfBits(b: byte)
    ensures ToBits(b / 2) == Half(ToBits(b))
    ensures ToBits(b).b0 == (b % 2 == 1)
  {
    var x1 := b / 2; var x2 := x1 / 2; var x3 := x2 / 2; var x4 := x3 / 2;
    var x5 := x4 / 2; var x6 := x5 / 2; var x7 := x6 / 2;
    assert x7 < 2;
    assert !Odd(x7 / 2);
  }

  /** The bits of a shifted left, the highest dropped. */
  function ShiftLeft(a: Bits): Bits {
    Bits(a.b6, a.b5, a.b4, a.b3, a.b2, a.b1, a.b0, false)
  }

  lemma ShiftLeftValue(a: byte)
    ensures OfBits(ShiftLeft(ToBits(a))) == 2 * a % 256
    ensures ToBits(a).b7 <==> a >= 128
  {
    ByteRoundTrip(a);
    OfBitsSplit(ToBits(a));
    hide ToBits, OfBits;
  }

  lemma OfBitsSplit(x: Bits)
    ensures
      var m := OfBits(Low(x));
      m < 128 && OfBits(x) == m + (if x.b7 then 128 else 0) && OfBits(ShiftLeft(x)) == 2 * m
  {
    hide Push;
    var h := if x.b7 then 1 else 0;
    PushOffset(0, 0, 0, 0, x.b7);
    PushOffset(0, 0, 0, 0, false);
    PushOffset(h, 0, h, 1, x.b6);
    var v6, m6 := Push(h, x.b6), Push(0, x.b6);
    SixDigits(v6, m6, h, x.b5, x.b4, x.b3, x.b2, x.b1, x.b0);
  }

  lemma SixDigits(v: nat, m: nat, h: nat, b5: bool, b4: bool, b3: bool, b2: bool, b1: bool, b0: bool)
    requires v == m + 2 * h && m < 2
    ensures
      var r := Push(Push(Push(Push(Push(Push(m, b5), b4), b3), b2), b1), b0);
      r < 128 && Push(Push(Push(Push(Push(Push(v, b5), b4), b3), b2), b1), b0) == r + 128 * h && Push(r, false) == 2 * r
  {
    hide *;
    var v5, m5 := Push(v, b5), Push(m, b5);
    PushOffset(v, m, 2 * h, 2, b5);
    var v4, m4 := Push(v5, b4), Push(m5, b4);
    PushOffset(v5, m5, 4 * h, 4, b4);
    var v3, m3 := Push(v4, b3), Push(m4, b3);
    PushOffset(v4, m4, 8 * h, 8, b3);
    var v2, m2 := Push(v3, b2), Push(m3, b2);
    PushOffset(v3, m3, 16 * h, 16, b2);
    var v1, m1 := Push(v2, b1), Push(m2, b1);
    PushOffset(v2, m2, 32 * h, 32, b1);
    PushOffset(v1, m1, 64 * h, 64, b0);
    PushOffset(Push(m1, b0), Push(m1, b0), 0, 128, false);
  }

  /** What a further digit does to a value, to an offset and to a bound. */
  lemma PushOffset(y: nat, m: nat, d: nat, bound: nat, b: bool)
    requires y == m + d && m <= bound
    ensures Push(y, b) == Push(m, b) + 2 * d
    ensures m < bound ==> Push(m, b) < 2 * bound
    ensures Push(0, b) == (if b then 1 else 0) && Push(m, false) == 2 * m
  {
  }

  lemma DoubleBits(a: byte)
    ensures ToBits(if a >= 128 then Xor(2 * a % 256, 0x1b) else 2 * a % 256) == Double(ToBits(a))
  {
    hide ToBits, OfBits, Exclusive;
    var x := ToBits(a);
    ShiftLeftValue(a);
    BitsRoundTrip(ShiftLeft(x));
    XorBits(2 * a % 256, 0x1b);
    ReductionBits();
    DoubleShift(x);
  }

  lemma ReductionBits()
    ensures ToBits(0x1b) == REDUCTION
  {
  }

  lemma DoubleShift(x: Bits)
    ensures Double(x) == if x.b7 then Exclusive(ShiftLeft(x), REDUCTION) else ShiftLeft(x)
  {
  }

  method GfMultiply(x: byte, y: byte) returns (p: byte)
    ensures p == Times(x, y)
  {
    hide ToBits, OfBits, Xor, Exclusive, Double, Half;
    p := 0;
    var a: byte, b: byte := x, y;
    assert Exclusive(ToBits(0), Product(ToBits(x), ToBits(y), 8)) == Product(ToBits(x), ToBits(y), 8) by {
      SmallBits();
      ZeroNeutral(Product(ToBits(x), ToBits(y), 8));
    }
    for i := 0 to 8
      invariant Exclusive(ToBits(p), Product(ToBits(a), ToBits(b), 8 - i)) == Product(ToBits(x), ToBits(y), 8)
    {
      ghost var before := a;
      MultiplyStep(p, a, b, 8 - i);
      if b % 2 == 1 {
        p := Xor(p, a);
      }
      var hi := a >= 128;
      a := 2 * a % 256;
      if hi {
        a := Xor(a, 0x1b);
      }
      DoubleBits(before);
      b := b / 2;
    }
    ZeroNeutral(ToBits(p));
    ByteRoundTrip(p);
  }

  lemma MultiplyStep(p: byte, a: byte, b: byte, n: nat)
    requires n > 0
    ensures
      Exclusive(ToBits(p), Product(ToBits(a), ToBits(b), n)) ==
        Exclusive(ToBits(if b % 2 == 1 then Xor(p, a) else p), Product(Double(ToBits(a)), ToBits(b / 2), n - 1))
  {
    hide *;
    var x, y := ToBits(a), ToBits(b);
    HalfBits(b);
    ProductStep(x, y, n);
    XorBits(p, a);
    ExclusiveAssociative(ToBits(p), x, Product(Double(x), Half(y), n - 1));
  }
}
