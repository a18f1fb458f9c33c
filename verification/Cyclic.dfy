/**
 * A structure whose 255 nonzero elements are the powers of one generator is a
 * field: products of powers add exponents.
 */
module Cyclic {
  import opened Fields

  /** The i-th power of g. */
  ghost function Power<E>(f: Field<E>, g: E, i: nat): E
    decreases i, f, g
  {
    if i == 0 then f.one else f.mul(Power(f, g, i - 1), g)
  }

  /** What must be known of multiplication beforehand: the generator associates. */
  ghost predicate Generates<E>(f: Field<E>, g: E, a: E, b: E, c: E) {
    && f.mul(a, f.one) == a
    && f.mul(a, f.zero) == f.zero
    && f.mul(f.zero, a) == f.zero
    && f.mul(a, f.mul(b, g)) == f.mul(f.mul(a, b), g)
    && f.mul(f.add(a, b), c) == f.add(f.mul(a, c), f.mul(b, c))
  }

  ghost predicate Generator<E(!new)>(f: Field<E>, g: E) {
    && f.one != f.zero
    && (forall a, b, c :: Adds(f, a, b, c))
    && (forall a, b, c :: Generates(f, g, a, b, c))
  }

  /** The order of the generator divides 255 and none of 15, 51 and 85. */
  ghost predicate FullOrder<E>(f: Field<E>, g: E) {
    Power(f, g, 255) == f.one && Power(f, g, 15) != f.one && Power(f, g, 51) != f.one && Power(f, g, 85) != f.one
  }

  lemma PowerNext<E>(f: Field<E>, g: E, i: nat)
    ensures Power(f, g, 0) == f.one && Power(f, g, i + 1) == f.mul(Power(f, g, i), g)
  {
  }

  lemma Units<E(!new)>(f: Field<E>, g: E, a: E)
    requires Generator(f, g)
    ensures f.mul(a, f.one) == a
    ensures f.mul(a, f.zero) == f.zero == f.mul(f.zero, a)
  {
    assert Generates(f, g, a, a, a);
  }

  lemma {:induction false} PowerSum<E(!new)>(f: Field<E>, g: E, i: nat, j: nat)
    requires Generator(f, g)
    ensures f.mul(Power(f, g, i), Power(f, g, j)) == Power(f, g, i + j)
    decreases j
  {
    Units(f, g, Power(f, g, i));
    if j > 0 {
      PowerSum(f, g, i, j - 1);
      assert Generates(f, g, Power(f, g, i), Power(f, g, j - 1), g);
    }
  }

  /** Two exponents of one have a common divisor that is an exponent of one. */
  lemma CommonExponent<E(!new)>(f: Field<E>, g: E, m: nat, n: nat) returns (d: nat, p: nat, q: nat)
    requires Generator(f, g) && m > 0 && n > 0
    requires Power(f, g, m) == f.one == Power(f, g, n)
    ensures d > 0 && m == d * p && n == d * q && Power(f, g, d) == f.one
    decreases m + n, n
  {
    hide *;
    if m == n {
      d, p, q := m, 1, 1;
    } else if m > n {
      PowerSum(f, g, m - n, n);
      Units(f, g, Power(f, g, m - n));
      d, p, q := CommonExponent(f, g, m - n, n);
      assert m == d * p + d * q;
      p := p + q;
    } else {
      d, q, p := CommonExponent(f, g, n, m);
    }
  }

  lemma {:induction false} PowerMultiple<E(!new)>(f: Field<E>, g: E, d: nat, k: nat, m: nat)
    requires Generator(f, g) && Power(f, g, d) == f.one && m == d * k
    ensures Power(f, g, m) == f.one
    decreases k
  {
    hide *;
    PowerNext(f, g, 0);
    if k > 0 {
      assert m - d == d * (k - 1);
      PowerMultiple(f, g, d, k - 1, m - d);
      PowerSum(f, g, m - d, d);
      Units(f, g, f.one);
    }
  }

  lemma SmallFactor(s: nat, t: nat)
    requires s * t == 255 && s <= 15
    ensures s in {1, 3, 5, 15}
  {
    assert s > 0;
    if s == 2 {} else if s == 4 {} else if s == 6 {} else if s == 7 {} else if s == 8 {} else if s == 9 {}
    else if s == 10 {} else if s == 11 {} else if s == 12 {} else if s == 13 {} else if s == 14 {}
  }

  lemma FactorBound(s: nat, t: nat)
    requires s * t == 255 && t > 15
    ensures s <= 15
  {
  }

  /** No smaller positive power is one. */
  lemma PowerPrimitive<E(!new)>(f: Field<E>, g: E, d: nat)
    requires Generator(f, g) && FullOrder(f, g)
    requires 0 < d < 255
    ensures Power(f, g, d) != f.one
  {
    hide Power, Generator;
    if Power(f, g, d) == f.one {
      var s, p, q := CommonExponent(f, g, 255, d);
      assert s <= d by { assert q >= 1; }
      if p <= 15 {
        SmallFactor(p, s);
        if p == 15 {
          PowerMultiple(f, g, 17, 3, 51);
        }
      } else {
        FactorBound(s, p);
        SmallFactor(s, p);
        PowerMultiple(f, g, s, 15 / s, 15);
      }
      assert false;
    }
  }

  /** The first 255 powers are pairwise different. */
  lemma PowerInjective<E(!new)>(f: Field<E>, g: E, i: nat, j: nat)
    requires Generator(f, g) && FullOrder(f, g)
    requires i < j < 255
    ensures Power(f, g, i) != Power(f, g, j)
  {
    hide Power, Generator;
    PowerPrimitive(f, g, j - i);
    PowerSum(f, g, 255 - i, i);
    PowerSum(f, g, 255 - i, j);
    PowerCycle(f, g, j - i);
  }

  /** The powers repeat after 255 steps. */
  lemma PowerCycle<E(!new)>(f: Field<E>, g: E, i: nat)
    requires Generator(f, g) && FullOrder(f, g)
    ensures Power(f, g, i + 255) == Power(f, g, i)
  {
    hide Power, Generator;
    PowerSum(f, g, i, 255);
    Units(f, g, Power(f, g, i));
  }

  lemma PowerNonzero<E(!new)>(f: Field<E>, g: E, i: nat)
    requires Generator(f, g) && FullOrder(f, g)
    requires i < 255
    ensures Power(f, g, i) != f.zero
  {
    hide Power;
    PowerSum(f, g, i, 255 - i);
    Units(f, g, Power(f, g, 255 - i));
  }

  // ---------- Every nonzero element is a power ----------

  /** The first n powers. */
  ghost function Visited<E>(f: Field<E>, g: E, n: nat): set<E> {
    set i | 0 <= i < n :: Power(f, g, i)
  }

  lemma {:induction false} VisitedSize<E(!new)>(f: Field<E>, g: E, n: nat)
    requires Generator(f, g) && FullOrder(f, g)
    requires n <= 255
    ensures |Visited(f, g, n)| == n
  {
    hide Power, Generator, FullOrder;
    if n == 0 {
      assert Visited(f, g, 0) == {};
    } else {
      VisitedSize(f, g, n - 1);
      assert Visited(f, g, n) == Visited(f, g, n - 1) + {Power(f, g, n - 1)};
      if Power(f, g, n - 1) in Visited(f, g, n - 1) {
        var i :| 0 <= i < n - 1 && Power(f, g, i) == Power(f, g, n - 1);
        PowerInjective(f, g, i, n - 1);
      }
    }
  }

  lemma {:induction false} SubsetSize<T>(a: set<T>, b: set<T>)
    requires a <= b
    ensures |a| <= |b|
  {
    if |a| > 0 {
      var x :| x in a;
      SubsetSize(a - {x}, b - {x});
    }
  }

  /** The 255 elements other than zero. */
  ghost predicate Nonzeros<E(!new)>(f: Field<E>, s: set<E>) {
    |s| == 255 && forall a :: a in s <==> a != f.zero
  }

  /** Every nonzero element has a logarithm. */
  lemma Logarithm<E(!new)>(f: Field<E>, g: E, nonzero: set<E>, a: E) returns (i: nat)
    requires Generator(f, g) && FullOrder(f, g) && Nonzeros(f, nonzero)
    requires a != f.zero
    ensures i < 255 && Power(f, g, i) == a
  {
    hide Power, Generator, FullOrder;
    if a in Visited(f, g, 255) {
      i :| 0 <= i < 255 && Power(f, g, i) == a;
    } else {
      VisitedSize(f, g, 255);
      forall x | x in Visited(f, g, 255) ensures x in nonzero - {a} {
        var k :| 0 <= k < 255 && Power(f, g, k) == x;
        PowerNonzero(f, g, k);
      }
      SubsetSize(Visited(f, g, 255), nonzero - {a});
      assert false;
    }
  }

  // ---------- The field laws ----------

  lemma Products<E(!new)>(f: Field<E>, g: E, nonzero: set<E>, a: E, b: E, c: E)
    requires Generator(f, g) && FullOrder(f, g) && Nonzeros(f, nonzero)
    ensures f.mul(a, b) == f.mul(b, a)
    ensures f.mul(f.mul(a, b), c) == f.mul(a, f.mul(b, c))
  {
    hide *;
    Units(f, g, a);
    Units(f, g, b);
    Units(f, g, c);
    Units(f, g, f.mul(a, b));
    Units(f, g, f.mul(b, c));
    if a != f.zero && b != f.zero {
      var i := Logarithm(f, g, nonzero, a);
      var j := Logarithm(f, g, nonzero, b);
      PowerSum(f, g, i, j);
      PowerSum(f, g, j, i);
      if c != f.zero {
        var k := Logarithm(f, g, nonzero, c);
        PowerSum(f, g, j, k);
        PowerSum(f, g, i + j, k);
        PowerSum(f, g, i, j + k);
      }
    }
  }

  lemma Inverse<E(!new)>(f: Field<E>, g: E, nonzero: set<E>, a: E)
    requires Generator(f, g) && FullOrder(f, g) && Nonzeros(f, nonzero)
    ensures Invertible(f, a)
  {
    if a != f.zero {
      hide Power, Generator;
      var i := Logarithm(f, g, nonzero, a);
      PowerSum(f, g, i, 255 - i);
      assert Inverts(f, a, Power(f, g, 255 - i));
    }
  }

  /** The powers of a generator of full order make a field. */
  lemma CyclicField<E(!new)>(f: Field<E>, g: E, nonzero: set<E>)
    requires Generator(f, g) && FullOrder(f, g) && Nonzeros(f, nonzero)
    ensures IsField(f)
  {
    hide Power, FullOrder, Nonzeros, Adds;
    forall a, b, c ensures Multiplies(f, a, b, c) {
      Products(f, g, nonzero, a, b, c);
      assert Generates(f, g, a, b, c);
    }
    forall a ensures Invertible(f, a) {
      Inverse(f, g, nonzero, a);
    }
  }
}
