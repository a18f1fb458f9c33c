/**
 * Polynomials over the field and Lagrange interpolation at zero, in the form
 * in which share recombination computes it.
 */
module Interpolation {
  import opened Fields

  // ---------- Definitions ----------

  /** Horner's rule: the constant coefficient comes first. */
  function Eval<E>(f: Field<E>, coeffs: seq<E>, x: E): E {
    if coeffs == [] then f.zero else f.add(f.mul(Eval(f, coeffs[1..], x), x), coeffs[0])
  }

  /** The factor z / (x + z) of a basis value. */
  ghost function Ratio<E(!new)>(f: Field<E>, x: E, z: E): (q: E)
    ensures IsField(f) && x != z ==> f.mul(q, f.add(x, z)) == z
  {
    assert IsField(f) && x != z ==> f.add(x, z) != f.zero by {
      if IsField(f) && x != z {
        SumNonzero(f, x, z);
      }
    }
    Quotient(f, z, f.add(x, z))
  }

  ghost function Ratios<E(!new)>(f: Field<E>, x: E, others: seq<E>): E
  {
    if others == [] then f.one
    else f.mul(Ratios(f, x, others[..|others| - 1]), Ratio(f, x, others[|others| - 1]))
  }

  ghost predicate Distinct<E>(xs: seq<E>) {
    forall i, j :: 0 <= i < j < |xs| ==> xs[i] != xs[j]
  }

  function Others<E>(xs: seq<E>, i: nat): seq<E>
    requires i < |xs|
  {
    xs[..i] + xs[i + 1..]
  }

  /** The Lagrange basis polynomial of point i, at zero. */
  ghost function Basis<E(!new)>(f: Field<E>, xs: seq<E>, i: nat): E
    requires i < |xs|
  {
    Ratios(f, xs[i], Others(xs, i))
  }

  function Total<E>(f: Field<E>, terms: seq<E>): E {
    if terms == [] then f.zero else f.add(Total(f, terms[..|terms| - 1]), terms[|terms| - 1])
  }

  ghost function Terms<E(!new)>(f: Field<E>, xs: seq<E>, ys: seq<E>): (t: seq<E>)
    requires |ys| == |xs|
    ensures |t| == |xs| && forall i :: 0 <= i < |xs| ==> t[i] == f.mul(ys[i], Basis(f, xs, i))
  {
    seq(|xs|, i requires 0 <= i < |xs| => f.mul(ys[i], Basis(f, xs, i)))
  }

  /** The interpolating polynomial through the points (xs[i], ys[i]), at zero. */
  ghost function Interpolate<E(!new)>(f: Field<E>, xs: seq<E>, ys: seq<E>): E
    requires |ys| == |xs|
  {
    Total(f, Terms(f, xs, ys))
  }

  function Evals<E>(f: Field<E>, coeffs: seq<E>, xs: seq<E>): (ys: seq<E>)
    ensures |ys| == |xs| && forall i :: 0 <= i < |xs| ==> ys[i] == Eval(f, coeffs, xs[i])
  {
    seq(|xs|, i requires 0 <= i < |xs| => Eval(f, coeffs, xs[i]))
  }

  // ---------- Sums ----------

  lemma {:induction false} TotalAdd<E(!new)>(f: Field<E>, a: seq<E>, b: seq<E>, c: seq<E>)
    requires IsField(f) && |a| == |b| == |c| && forall i :: 0 <= i < |a| ==> c[i] == f.add(a[i], b[i])
    ensures Total(f, c) == f.add(Total(f, a), Total(f, b))
  {
    if a == [] {
      AddZero(f, f.zero);
    } else {
      var n := |a| - 1;
      TotalAdd(f, a[..n], b[..n], c[..n]);
      AddSwaps(f, Total(f, a[..n]), Total(f, b[..n]), a[n], b[n]);
    }
  }

  lemma {:induction false} TotalScale<E(!new)>(f: Field<E>, k: E, a: seq<E>, c: seq<E>)
    requires IsField(f) && |a| == |c| && forall i :: 0 <= i < |a| ==> c[i] == f.mul(k, a[i])
    ensures Total(f, c) == f.mul(k, Total(f, a))
  {
    if a == [] {
      MulOneZero(f, k);
    } else {
      var n := |a| - 1;
      TotalScale(f, k, a[..n], c[..n]);
      DistributesRight(f, k, Total(f, a[..n]), a[n]);
    }
  }

  // ---------- Ratios ----------

  /** z / (x + z) + x / (x + z) == 1. */
  lemma RatioComplement<E(!new)>(f: Field<E>, x: E, z: E)
    requires IsField(f) && x != z
    ensures f.add(Ratio(f, x, z), Ratio(f, z, x)) == f.one
  {
    hide *;
    var d := f.add(x, z);
    SumNonzero(f, x, z);
    AddCommutes(f, x, z);
    DistributesLeft(f, Ratio(f, x, z), Ratio(f, z, x), d);
    MulOneZero(f, d);
        Commutes(f, f.add(Ratio(f, x, z), Ratio(f, z, x)), d);
    MulCancels(f, d, f.add(Ratio(f, x, z), Ratio(f, z, x)), f.one);
  }

  /** Partial fractions: x/(x+z) * w/(x+w) == w/(z+w) * (x/(x+z) + x/(x+w)). */
  lemma PartialFractions<E(!new)>(f: Field<E>, x: E, z: E, w: E)
    requires IsField(f) && x != z && x != w && z != w
    ensures f.mul(Ratio(f, z, x), Ratio(f, x, w)) == f.mul(Ratio(f, z, w), f.add(Ratio(f, z, x), Ratio(f, w, x)))
  {
    hide *;
    var a, b, c := f.add(z, x), f.add(x, w), f.add(z, w);
    var p, q, r, s := Ratio(f, z, x), Ratio(f, x, w), Ratio(f, z, w), Ratio(f, w, x);
    SumNonzero(f, z, x);
    SumNonzero(f, x, w);
    AddCommutes(f, x, w);
    var left, right := f.mul(p, q), f.mul(r, f.add(p, s));
    // both sides times a * b are x * w
    MulSwaps(f, p, q, a, b);
    var ab := f.mul(a, b);
    assert f.mul(left, ab) == f.mul(x, w);
    DistributesLeft(f, p, s, ab);
    Associates(f, p, a, b);
    Commutes(f, a, b);
    Associates(f, s, b, a);
    DistributesRight(f, x, b, a);
    assert f.mul(f.add(p, s), ab) == f.mul(x, f.add(b, a));
    AddMiddle(f, z, x, w);
    AddCommutes(f, a, b);
    assert f.add(b, a) == c;
    Associates(f, r, f.add(p, s), ab);
    Commutes(f, x, c);
    Associates(f, r, c, x);
    Commutes(f, w, x);
    assert f.mul(right, ab) == f.mul(x, w);
    ProductNonzero(f, a, b);
    Commutes(f, left, ab);
    Commutes(f, right, ab);
    MulCancels(f, ab, left, right);
  }

  // ---------- Adding one point ----------

  /** What one more point z does to the basis values, and its own basis value. */
  lemma BasisSnoc<E(!new)>(f: Field<E>, ys: seq<E>, z: E, i: nat)
    requires IsField(f) && Distinct(ys + [z]) && i <= |ys|
    ensures Distinct(ys) && z !in ys
    ensures i < |ys| ==> Basis(f, ys + [z], i) == f.mul(Basis(f, ys, i), Ratio(f, ys[i], z))
    ensures i == |ys| ==> Basis(f, ys + [z], i) == Ratios(f, z, ys)
  {
    var xs := ys + [z];
    hide Ratio;
    forall j, k | 0 <= j < k < |ys| ensures ys[j] != ys[k] {
      assert xs[j] != xs[k];
    }
    forall j | 0 <= j < |ys| ensures ys[j] != z {
      assert xs[j] != xs[|ys|];
    }
    if i < |ys| {
      var os := Others(xs, i);
      assert os[..|os| - 1] == Others(ys, i);
    } else {
      assert Others(xs, i) == ys;
    }
  }

  /** The values x[i] / (x[i] + z), each times the basis value of point i. */
  ghost function Fractions<E(!new)>(f: Field<E>, us: seq<E>, z: E): (t: seq<E>)
    ensures |t| == |us| && forall i :: 0 <= i < |us| ==> t[i] == f.mul(Basis(f, us, i), Ratio(f, z, us[i]))
  {
    seq(|us|, i requires 0 <= i < |us| => f.mul(Basis(f, us, i), Ratio(f, z, us[i])))
  }

  /** The partial fraction expansion of the product of all x[j] / (x[j] + z). */
  lemma {:induction false} FractionSum<E(!new)>(f: Field<E>, us: seq<E>, z: E)
    requires IsField(f) && Distinct(us) && z !in us && us != []
    ensures Total(f, Fractions(f, us, z)) == Ratios(f, z, us)
  {
    hide Ratio, Basis;
    var m := |us| - 1;
    var ts, w := us[..m], us[m];
    assert us == ts + [w];
    BasisSnoc(f, ts, w, m);
    var t := Fractions(f, us, z);
    if m == 0 {
      SinglePoint(f, us, z);
    } else {
      var r := Ratio(f, z, w);
      var gz, gw := Fractions(f, ts, z), Fractions(f, ts, w);
      FractionSum(f, ts, z);
      FractionSum(f, ts, w);
      var g := seq(m, i requires 0 <= i < m => f.add(gz[i], gw[i]));
      TotalAdd(f, gz, gw, g);
      forall i | 0 <= i < m ensures t[i] == f.mul(r, g[i]) {
        FractionStep(f, ts, z, w, i);
      }
      TotalScale(f, r, g, t[..m]);
      FractionTotal(f, Ratios(f, z, ts), Ratios(f, w, ts), r);
    }
  }

  lemma FractionStep<E(!new)>(f: Field<E>, ts: seq<E>, z: E, w: E, i: nat)
    requires IsField(f) && Distinct(ts + [w]) && Distinct(ts) && z !in ts + [w] && w !in ts && i < |ts|
    ensures Fractions(f, ts + [w], z)[i] == f.mul(Ratio(f, z, w), f.add(Fractions(f, ts, z)[i], Fractions(f, ts, w)[i]))
  {
    hide Ratio, Basis, Distinct;
    BasisSnoc(f, ts, w, i);
    assert (ts + [w])[i] == ts[i];
    FractionTerm(f, Basis(f, ts, i), ts[i], z, w);
  }

  lemma SinglePoint<E(!new)>(f: Field<E>, us: seq<E>, z: E)
    requires IsField(f) && |us| == 1 && z !in us
    ensures Total(f, Fractions(f, us, z)) == Ratios(f, z, us)
  {
    hide Ratio;
    var t := Fractions(f, us, z);
    assert Others(us, 0) == [] && us[..0] == [] && t[..0] == [];
    AddZero(f, t[0]);
  }

  lemma FractionTerm<E(!new)>(f: Field<E>, b: E, x: E, z: E, w: E)
    requires IsField(f) && x != z && x != w && z != w
    ensures
      f.mul(f.mul(b, Ratio(f, x, w)), Ratio(f, z, x)) ==
        f.mul(Ratio(f, z, w), f.add(f.mul(b, Ratio(f, z, x)), f.mul(b, Ratio(f, w, x))))
  {
    hide *;
    var p, q, r, s := Ratio(f, z, x), Ratio(f, x, w), Ratio(f, z, w), Ratio(f, w, x);
    PartialFractions(f, x, z, w);
    Associates(f, b, q, p);
    Commutes(f, q, p);
    DistributesRight(f, b, p, s);
    Commutes(f, r, f.mul(b, f.add(p, s)));
    Associates(f, b, f.add(p, s), r);
    Commutes(f, r, f.add(p, s));
  }

  lemma FractionTotal<E(!new)>(f: Field<E>, a: E, b: E, r: E)
    requires IsField(f)
    ensures f.add(f.mul(r, f.add(a, b)), f.mul(b, r)) == f.mul(a, r)
  {
    hide *;
    DistributesRight(f, r, a, b);
    Commutes(f, b, r);
    Commutes(f, a, r);
    AddCancels(f, f.mul(r, a), f.mul(r, b));
  }

  ghost function Bases<E(!new)>(f: Field<E>, xs: seq<E>): (t: seq<E>)
    ensures |t| == |xs| && forall i :: 0 <= i < |xs| ==> t[i] == Basis(f, xs, i)
  {
    seq(|xs|, i requires 0 <= i < |xs| => Basis(f, xs, i))
  }

  /** The basis values of any nonempty set of points sum to one. */
  lemma {:induction false} PartitionOfUnity<E(!new)>(f: Field<E>, xs: seq<E>)
    requires IsField(f) && Distinct(xs) && xs != []
    ensures Total(f, Bases(f, xs)) == f.one
  {
    hide Ratio, Basis;
    var m := |xs| - 1;
    var ys, z := xs[..m], xs[m];
    assert xs == ys + [z];
    BasisSnoc(f, ys, z, m);
    var t := Bases(f, xs);
    if m == 0 {
      assert Total(f, t[..0]) == f.zero;
        AddZero(f, f.one);
    } else {
      PartitionOfUnity(f, ys);
      FractionSum(f, ys, z);
      var b, g := Bases(f, ys), Fractions(f, ys, z);
      forall i | 0 <= i < m ensures t[i] == f.add(b[i], g[i]) {
        BasisSnoc(f, ys, z, i);
        UnityTerm(f, Basis(f, ys, i), ys[i], z);
      }
      TotalAdd(f, b, g, t[..m]);
      AddCancels(f, f.one, Ratios(f, z, ys));
    }
  }

  lemma UnityTerm<E(!new)>(f: Field<E>, b: E, x: E, z: E)
    requires IsField(f) && x != z
    ensures f.mul(b, Ratio(f, x, z)) == f.add(b, f.mul(b, Ratio(f, z, x)))
  {
    hide *;
    RatioComplement(f, x, z);
    DistributesRight(f, b, Ratio(f, x, z), Ratio(f, z, x));
    MulOneZero(f, b);
    AddCancels(f, f.mul(b, Ratio(f, x, z)), f.mul(b, Ratio(f, z, x)));
  }

  // ---------- Recombination ----------

  function Constant<E>(f: Field<E>, coeffs: seq<E>): E {
    if coeffs == [] then f.zero else coeffs[0]
  }

  /**
   * Interpolating a polynomial through at least as many distinct points as it
   * has coefficients gives back its constant coefficient.
   */
  lemma {:induction false} Recombine<E(!new)>(f: Field<E>, xs: seq<E>, coeffs: seq<E>)
    requires IsField(f) && Distinct(xs) && |coeffs| <= |xs|
    ensures Interpolate(f, xs, Evals(f, coeffs, xs)) == Constant(f, coeffs)
    decreases |coeffs|
  {
    hide Ratio, Basis;
    var t := Terms(f, xs, Evals(f, coeffs, xs));
    if coeffs == [] {
      forall i | 0 <= i < |xs| ensures t[i] == f.mul(f.zero, Basis(f, xs, i)) {}
      TotalScale(f, f.zero, Bases(f, xs), t);
      MulOneZero(f, Total(f, Bases(f, xs)));
    } else {
      var rest := coeffs[1..];
      var p := Evals(f, rest, xs);
      Recombine(f, xs, rest);
      Recombine(f, xs[..|xs| - 1], rest);
      var high := HighPart(f, xs, rest);
      var low := seq(|xs|, i requires 0 <= i < |xs| => f.mul(coeffs[0], Basis(f, xs, i)));
      PartitionOfUnity(f, xs);
      TotalScale(f, coeffs[0], Bases(f, xs), low);
      MulOneZero(f, coeffs[0]);
      forall i | 0 <= i < |xs| ensures t[i] == f.add(high[i], low[i]) {
        DistributesLeft(f, f.mul(p[i], xs[i]), coeffs[0], Basis(f, xs, i));
      }
      TotalAdd(f, high, low, t);
        AddZero(f, coeffs[0]);
    }
  }

  /** The part x * rest(x) contributes nothing at zero. */
  lemma HighPart<E(!new)>(f: Field<E>, xs: seq<E>, rest: seq<E>) returns (t: seq<E>)
    requires IsField(f) && Distinct(xs) && |rest| < |xs|
    requires Interpolate(f, xs, Evals(f, rest, xs)) == Constant(f, rest)
    requires Interpolate(f, xs[..|xs| - 1], Evals(f, rest, xs[..|xs| - 1])) == Constant(f, rest)
    ensures |t| == |xs|
    ensures forall i :: 0 <= i < |xs| ==> t[i] == f.mul(f.mul(Eval(f, rest, xs[i]), xs[i]), Basis(f, xs, i))
    ensures Total(f, t) == f.zero
  {
    hide Ratio, Basis, Eval;
    var m := |xs| - 1;
    var ys, z := xs[..m], xs[m];
    assert xs == ys + [z];
    var p, q := Evals(f, rest, xs), Evals(f, rest, ys);
    var full, short := Terms(f, xs, p), Terms(f, ys, q);
    t := seq(|xs|, i requires 0 <= i < |xs| => f.mul(f.mul(p[i], xs[i]), Basis(f, xs, i)));
    var u := seq(|xs|, i requires 0 <= i < |xs| => f.mul(f.add(xs[i], z), full[i]));
    var v := seq(|xs|, i requires 0 <= i < |xs| => f.mul(z, full[i]));
    TotalScale(f, z, full, v);
    forall i | 0 <= i < |xs| ensures t[i] == f.add(u[i], v[i]) {
      TermSplit(f, p[i], xs[i], z, Basis(f, xs, i));
    }
    TotalAdd(f, u, v, t);
    forall i | 0 <= i < m ensures u[i] == f.mul(z, short[i]) {
      BasisSnoc(f, ys, z, i);
      TermShrink(f, p[i], xs[i], z, Basis(f, ys, i));
    }
    TotalScale(f, z, short, u[..m]);
    AddZero(f, z);
    MulOneZero(f, full[m]);
    AddZero(f, Total(f, u[..m]));
    AddZero(f, Total(f, v));
  }

  lemma TermSplit<E(!new)>(f: Field<E>, p: E, x: E, z: E, b: E)
    requires IsField(f)
    ensures f.mul(f.mul(p, x), b) == f.add(f.mul(f.add(x, z), f.mul(p, b)), f.mul(z, f.mul(p, b)))
  {
    hide *;
    DistributesLeft(f, x, z, f.mul(p, b));
    AddCancels(f, f.mul(x, f.mul(p, b)), f.mul(z, f.mul(p, b)));
    Commutes(f, p, x);
    Associates(f, x, p, b);
  }

  lemma TermShrink<E(!new)>(f: Field<E>, p: E, x: E, z: E, b: E)
    requires IsField(f) && x != z
    ensures f.mul(f.add(x, z), f.mul(p, f.mul(b, Ratio(f, x, z)))) == f.mul(z, f.mul(p, b))
  {
    hide *;
    var r, d := Ratio(f, x, z), f.add(x, z);
    Associates(f, p, b, r);
    Commutes(f, d, f.mul(f.mul(p, b), r));
    Associates(f, f.mul(p, b), r, d);
    Commutes(f, f.mul(p, b), z);
  }

  // ---------- Too few points ----------

  /** The polynomial with the given constant and further coefficients goes through the points. */
  ghost predicate Explains<E>(f: Field<E>, secret: E, tail: seq<E>, xs: seq<E>, ys: seq<E>) {
    |tail| == |xs| && Evals(f, [secret] + tail, xs) == ys
  }

  ghost predicate Nonzero<E>(f: Field<E>, xs: seq<E>) {
    forall i :: 0 <= i < |xs| ==> xs[i] != f.zero
  }

  /** Polynomials that agree on enough nonzero points have the same coefficients. */
  lemma {:induction false} FitUnique<E(!new)>(f: Field<E>, xs: seq<E>, c: seq<E>, d: seq<E>)
    requires IsField(f) && Distinct(xs) && Nonzero(f, xs)
    requires |c| == |d| <= |xs|
    requires Evals(f, c, xs) == Evals(f, d, xs)
    ensures c == d
    decreases |c|
  {
    if c != [] {
      Recombine(f, xs, c);
      Recombine(f, xs, d);
      assert c[0] == d[0];
      var p, q := Evals(f, c[1..], xs), Evals(f, d[1..], xs);
      forall i | 0 <= i < |xs| ensures p[i] == q[i] {
        assert Eval(f, c, xs[i]) == Evals(f, c, xs)[i] == Evals(f, d, xs)[i] == Eval(f, d, xs[i]);
        AddCancels(f, f.mul(p[i], xs[i]), c[0]);
        AddCancels(f, f.mul(q[i], xs[i]), c[0]);
        Commutes(f, p[i], xs[i]);
        Commutes(f, q[i], xs[i]);
        MulCancels(f, xs[i], p[i], q[i]);
      }
      assert p == q;
      FitUnique(f, xs, c[1..], d[1..]);
    }
  }

  /** The coefficients of (x + z) times a polynomial. */
  function TimesLinear<E>(f: Field<E>, c: seq<E>, z: E): (r: seq<E>)
    ensures |r| == |c| + 1
  {
    if c == [] then [f.zero]
    else [f.mul(z, c[0])] + Shift(f, TimesLinear(f, c[1..], z), c[0])
  }

  /** A polynomial plus a constant. */
  function Shift<E>(f: Field<E>, c: seq<E>, k: E): (r: seq<E>)
    requires c != []
    ensures |r| == |c|
  {
    [f.add(c[0], k)] + c[1..]
  }

  lemma ShiftEval<E(!new)>(f: Field<E>, c: seq<E>, k: E, x: E)
    requires IsField(f) && c != []
    ensures Eval(f, Shift(f, c, k), x) == f.add(Eval(f, c, x), k)
  {
    assert Shift(f, c, k)[1..] == c[1..];
    AddAssociates(f, f.mul(Eval(f, c[1..], x), x), c[0], k);
  }

  lemma {:induction false} TimesLinearEval<E(!new)>(f: Field<E>, c: seq<E>, z: E, x: E)
    requires IsField(f)
    ensures Eval(f, TimesLinear(f, c, z), x) == f.mul(Eval(f, c, x), f.add(x, z))
    decreases |c|
  {
    hide Shift;
    if c == [] {
      assert Eval(f, [], x) == f.zero && Eval(f, [f.zero][1..], x) == f.zero;
      MulOneZero(f, x);
      MulOneZero(f, f.add(x, z));
      AddZero(f, f.zero);
    } else {
      var r := TimesLinear(f, c[1..], z);
      TimesLinearEval(f, c[1..], z, x);
      ShiftEval(f, r, c[0], x);
      assert TimesLinear(f, c, z)[1..] == Shift(f, r, c[0]);
      LinearStep(f, Eval(f, c[1..], x), c[0], x, z);
    }
  }

  /** (e * (x + z) + k) * x + z * k == (e * x + k) * (x + z). */
  lemma LinearStep<E(!new)>(f: Field<E>, e: E, k: E, x: E, z: E)
    requires IsField(f)
    ensures f.add(f.mul(f.add(f.mul(e, f.add(x, z)), k), x), f.mul(z, k)) == f.mul(f.add(f.mul(e, x), k), f.add(x, z))
  {
    hide *;
    var d := f.add(x, z);
    DistributesLeft(f, f.mul(e, d), k, x);
    DistributesLeft(f, f.mul(e, x), k, d);
    Associates(f, e, d, x);
    Associates(f, e, x, d);
    Commutes(f, d, x);
    DistributesRight(f, k, x, z);
    Commutes(f, z, k);
    AddAssociates(f, f.mul(f.mul(e, d), x), f.mul(k, x), f.mul(k, z));
  }

  /** Some polynomial with one coefficient per point goes through the points. */
  lemma {:induction false} FitExists<E(!new)>(f: Field<E>, xs: seq<E>, ys: seq<E>) returns (c: seq<E>)
    requires IsField(f) && Distinct(xs) && |xs| == |ys|
    ensures |c| == |xs| && Evals(f, c, xs) == ys
    decreases |xs|
  {
    hide Shift, Eval;
    if xs == [] {
      c := [];
    } else {
      var m := |xs| - 1;
      var us, z, w := xs[..m], xs[m], ys[m];
      assert us + [z] == xs;
      BasisSnoc(f, us, z, m);
      var vs := SlopesTo(f, us, ys[..m], z, w);
      var r := FitExists(f, us, vs);
      c := Shift(f, TimesLinear(f, r, z), w);
      forall i | 0 <= i < |xs| ensures Eval(f, c, xs[i]) == ys[i] {
        ShiftEval(f, TimesLinear(f, r, z), w, xs[i]);
        TimesLinearEval(f, r, z, xs[i]);
        if i < m {
          assert Eval(f, r, us[i]) == Evals(f, r, us)[i] == vs[i];
          AddCancels(f, ys[i], w);
        } else {
          AddZero(f, z);
          MulOneZero(f, Eval(f, r, z));
                AddZero(f, w);
        }
      }
      assert Evals(f, c, xs) == ys;
    }
  }

  /** The divided differences against the point (z, w). */
  lemma {:induction false} SlopesTo<E(!new)>(f: Field<E>, us: seq<E>, ys: seq<E>, z: E, w: E) returns (vs: seq<E>)
    requires IsField(f) && |us| == |ys| && z !in us
    ensures |vs| == |us| && forall i :: 0 <= i < |us| ==> f.mul(vs[i], f.add(us[i], z)) == f.add(ys[i], w)
  {
    vs := [];
    for i := 0 to |us|
      invariant |vs| == i
      invariant forall k :: 0 <= k < i ==> f.mul(vs[k], f.add(us[k], z)) == f.add(ys[k], w)
    {
      SumNonzero(f, us[i], z);
      QuotientExists(f, f.add(ys[i], w), f.add(us[i], z));
      var q :| Divides(f, f.add(ys[i], w), f.add(us[i], z), q);
      vs := vs + [q];
    }
  }

  /**
   * Fewer points than coefficients fix nothing: whatever the secret, exactly one
   * choice of the remaining coefficients produces the given values.
   */
  lemma {:induction false} Secrecy<E(!new)>(f: Field<E>, secret: E, xs: seq<E>, ys: seq<E>)
    requires IsField(f) && Distinct(xs) && Nonzero(f, xs) && |xs| == |ys|
    ensures exists tail :: Explains(f, secret, tail, xs, ys) && forall other :: Explains(f, secret, other, xs, ys) ==> other == tail
  {
    hide Eval;
    var vs := SlopesTo(f, xs, ys, f.zero, secret);
    var tail := FitExists(f, xs, vs);
    forall i | 0 <= i < |xs| ensures Eval(f, [secret] + tail, xs[i]) == ys[i] {
      EvalSplit(f, secret, tail, xs[i]);
      assert Eval(f, tail, xs[i]) == Evals(f, tail, xs)[i];
      AddZero(f, xs[i]);
      AddCancels(f, ys[i], secret);
    }
    assert Evals(f, [secret] + tail, xs) == ys;
    assert Explains(f, secret, tail, xs, ys);
    forall other | Explains(f, secret, other, xs, ys) ensures other == tail {
      assert ([secret] + other)[1..] == other;
      var p, q := Evals(f, other, xs), Evals(f, tail, xs);
      forall i | 0 <= i < |xs| ensures p[i] == q[i] {
        EvalSplit(f, secret, other, xs[i]);
        EvalSplit(f, secret, tail, xs[i]);
        assert Eval(f, [secret] + other, xs[i]) == Evals(f, [secret] + other, xs)[i];
        assert Eval(f, [secret] + tail, xs[i]) == Evals(f, [secret] + tail, xs)[i];
        AddCancels(f, f.mul(p[i], xs[i]), secret);
        AddCancels(f, f.mul(q[i], xs[i]), secret);
        Commutes(f, p[i], xs[i]);
        Commutes(f, q[i], xs[i]);
        MulCancels(f, xs[i], p[i], q[i]);
      }
      assert p == q;
      FitUnique(f, xs, other, tail);
    }
  }

  lemma EvalSplit<E(!new)>(f: Field<E>, secret: E, tail: seq<E>, x: E)
    requires IsField(f)
    ensures Eval(f, [secret] + tail, x) == f.add(f.mul(Eval(f, tail, x), x), secret)
  {
    assert ([secret] + tail)[1..] == tail;
  }
}
