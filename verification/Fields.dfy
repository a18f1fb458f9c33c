/** Fields in which every element is its own negative, as in arithmetic on bits. */
module Fields {

  datatype Field<!E> = Field(zero: E, one: E, add: (E, E) -> E, mul: (E, E) -> E)

  /** The laws of addition, at three elements. */
  ghost predicate Adds<E>(f: Field<E>, a: E, b: E, c: E) {
    && f.add(a, b) == f.add(b, a)
    && f.add(f.add(a, b), c) == f.add(a, f.add(b, c))
    && f.add(a, f.zero) == a
    && f.add(a, a) == f.zero
  }

  /** The laws of multiplication, at three elements. */
  ghost predicate Multiplies<E>(f: Field<E>, a: E, b: E, c: E) {
    && f.mul(a, b) == f.mul(b, a)
    && f.mul(f.mul(a, b), c) == f.mul(a, f.mul(b, c))
    && f.mul(a, f.one) == a
    && f.mul(f.add(a, b), c) == f.add(f.mul(a, c), f.mul(b, c))
  }

  ghost predicate Inverts<E>(f: Field<E>, a: E, r: E) {
    f.mul(a, r) == f.one
  }

  ghost predicate Invertible<E(!new)>(f: Field<E>, a: E) {
    a != f.zero ==> exists r :: Inverts(f, a, r)
  }

  ghost predicate IsField<E(!new)>(f: Field<E>) {
    && (forall a, b, c :: Adds(f, a, b, c))
    && (forall a, b, c :: Multiplies(f, a, b, c))
    && (forall a :: Invertible(f, a))
  }

  // ---------- Addition ----------

  lemma AddCommutes<E(!new)>(f: Field<E>, a: E, b: E)
    requires IsField(f)
    ensures f.add(a, b) == f.add(b, a)
  {
    assert Adds(f, a, b, a);
  }

  lemma AddAssociates<E(!new)>(f: Field<E>, a: E, b: E, c: E)
    requires IsField(f)
    ensures f.add(f.add(a, b), c) == f.add(a, f.add(b, c))
  {
    assert Adds(f, a, b, c);
  }

  lemma AddZero<E(!new)>(f: Field<E>, a: E)
    requires IsField(f)
    ensures f.add(a, f.zero) == a == f.add(f.zero, a) && f.add(a, a) == f.zero
  {
    assert Adds(f, a, f.zero, a);
  }

  /** Adding twice the same element changes nothing. */
  lemma AddCancels<E(!new)>(f: Field<E>, a: E, b: E)
    requires IsField(f)
    ensures f.add(f.add(a, b), b) == a
  {
    hide *;
    AddAssociates(f, a, b, b);
    AddZero(f, a);
    AddZero(f, b);
  }

  lemma AddSwaps<E(!new)>(f: Field<E>, a: E, b: E, c: E, d: E)
    requires IsField(f)
    ensures f.add(f.add(a, b), f.add(c, d)) == f.add(f.add(a, c), f.add(b, d))
  {
    hide *;
    AddAssociates(f, a, b, f.add(c, d));
    AddAssociates(f, b, c, d);
    AddCommutes(f, b, c);
    AddAssociates(f, c, b, d);
    AddAssociates(f, a, c, f.add(b, d));
  }

  lemma AddMiddle<E(!new)>(f: Field<E>, a: E, b: E, c: E)
    requires IsField(f)
    ensures f.add(f.add(a, b), f.add(b, c)) == f.add(a, c)
  {
    hide *;
    AddAssociates(f, f.add(a, b), b, c);
    AddCancels(f, a, b);
  }

  lemma SumNonzero<E(!new)>(f: Field<E>, a: E, b: E)
    requires IsField(f) && a != b
    ensures f.add(a, b) != f.zero
  {
    hide *;
    AddCancels(f, a, b);
    AddZero(f, b);
  }

  // ---------- Multiplication ----------

  lemma Commutes<E(!new)>(f: Field<E>, a: E, b: E)
    requires IsField(f)
    ensures f.mul(a, b) == f.mul(b, a)
  {
    assert Multiplies(f, a, b, a);
  }

  lemma Associates<E(!new)>(f: Field<E>, a: E, b: E, c: E)
    requires IsField(f)
    ensures f.mul(f.mul(a, b), c) == f.mul(a, f.mul(b, c))
  {
    assert Multiplies(f, a, b, c);
  }

  lemma DistributesLeft<E(!new)>(f: Field<E>, a: E, b: E, c: E)
    requires IsField(f)
    ensures f.mul(f.add(a, b), c) == f.add(f.mul(a, c), f.mul(b, c))
  {
    assert Multiplies(f, a, b, c);
  }

  lemma DistributesRight<E(!new)>(f: Field<E>, a: E, b: E, c: E)
    requires IsField(f)
    ensures f.mul(a, f.add(b, c)) == f.add(f.mul(a, b), f.mul(a, c))
  {
    hide *;
    Commutes(f, a, f.add(b, c));
    DistributesLeft(f, b, c, a);
    Commutes(f, a, b);
    Commutes(f, a, c);
  }

  lemma MulOneZero<E(!new)>(f: Field<E>, a: E)
    requires IsField(f)
    ensures f.mul(a, f.one) == a == f.mul(f.one, a)
    ensures f.mul(a, f.zero) == f.zero == f.mul(f.zero, a)
  {
    assert Multiplies(f, a, f.one, a);
    hide *;
    DistributesRight(f, a, a, a);
    AddZero(f, a);
    AddZero(f, f.mul(a, a));
    Commutes(f, a, f.zero);
  }

  /** A nonzero factor cancels. */
  lemma MulCancels<E(!new)>(f: Field<E>, a: E, b: E, c: E)
    requires IsField(f) && a != f.zero && f.mul(a, b) == f.mul(a, c)
    ensures b == c
  {
    assert Invertible(f, a);
    var r :| Inverts(f, a, r);
    hide Adds, Multiplies, IsField;
    Commutes(f, a, r);
    Associates(f, r, a, b);
    Associates(f, r, a, c);
    MulOneZero(f, b);
    MulOneZero(f, c);
  }

  lemma ProductNonzero<E(!new)>(f: Field<E>, a: E, b: E)
    requires IsField(f) && a != f.zero && b != f.zero
    ensures f.mul(a, b) != f.zero
  {
    hide *;
    if f.mul(a, b) == f.zero {
      MulOneZero(f, a);
      MulCancels(f, a, b, f.zero);
    }
  }

  lemma MulSwaps<E(!new)>(f: Field<E>, a: E, b: E, c: E, d: E)
    requires IsField(f)
    ensures f.mul(f.mul(a, b), f.mul(c, d)) == f.mul(f.mul(a, c), f.mul(b, d))
  {
    hide *;
    Associates(f, a, b, f.mul(c, d));
    Associates(f, b, c, d);
    Commutes(f, b, c);
    Associates(f, c, b, d);
    Associates(f, a, c, f.mul(b, d));
  }

  // ---------- Quotients ----------

  ghost predicate Divides<E>(f: Field<E>, a: E, b: E, q: E) {
    f.mul(q, b) == a
  }

  lemma QuotientExists<E(!new)>(f: Field<E>, a: E, b: E)
    requires IsField(f) && b != f.zero
    ensures exists q :: Divides(f, a, b, q)
  {
    assert Invertible(f, b);
    var r :| Inverts(f, b, r);
    hide Adds, Multiplies, IsField;
    Associates(f, a, r, b);
    Commutes(f, r, b);
    MulOneZero(f, a);
    assert Divides(f, a, b, f.mul(a, r));
  }

  /** The quotient of two elements. */
  ghost function Quotient<E(!new)>(f: Field<E>, a: E, b: E): (q: E)
    ensures IsField(f) && b != f.zero ==> f.mul(q, b) == a
  {
    if exists q :: Divides(f, a, b, q) then
      var q :| Divides(f, a, b, q); q
    else
      assert IsField(f) && b != f.zero ==> false by {
        if IsField(f) && b != f.zero {
          QuotientExists(f, a, b);
        }
      }
      f.zero
  }

  lemma QuotientUnique<E(!new)>(f: Field<E>, a: E, b: E, q: E)
    requires IsField(f) && b != f.zero && f.mul(q, b) == a
    ensures q == Quotient(f, a, b)
  {
    hide *;
    Commutes(f, b, q);
    Commutes(f, b, Quotient(f, a, b));
    MulCancels(f, b, q, Quotient(f, a, b));
  }
}
