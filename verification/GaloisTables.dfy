/** The logarithm tables of the Shamir module, and arithmetic through them. */
module GaloisTables {
  import opened Wrappers
  import opened Bytes
  import opened Cyclic
  import opened GF256

  /** A JavaScript number; reading a table past its end gives none. */
  type Number = Option<nat>

  predicate IsByte(a: Number) {
    a.Some? && a.value < 256
  }

  /** The two tables, filled once and never changed. */
  class Tables {
    const exp: array<byte>
    const log: array<byte>

    ghost predicate Valid()
      reads this, exp, log
    {
      && exp.Length == 512
      && log.Length == 256
      && (forall i :: 0 <= i < 512 ==> exp[i] == Power(BYTES, 3, i))
      && (forall a: byte :: a != 0 ==> log[a] < 255 && Power(BYTES, 3, log[a]) == a)
    }

    constructor ()
      ensures Valid() && fresh(exp) && fresh(log)
    {
      exp := new byte[512](_ => 0);
      log := new byte[256](_ => 0);
      new;
      InitGf256(exp, log);
    }

    /**
     * Multiplication through the tables is field multiplication. A factor
     * without a logarithm makes the product undefined, unless the other is 0.
     */
    function GfMul(a: Number, b: Number): (r: Number)
      requires Valid()
      reads this, exp, log
      ensures a == Some(0) || b == Some(0) ==> r == Some(0)
      ensures a != Some(0) && b != Some(0) && !(IsByte(a) && IsByte(b)) ==> r == None
      ensures IsByte(a) && IsByte(b) ==> r == Some(Times(a.value, b.value))
    {
      NumberProduct(a, b);
      if a == Some(0) || b == Some(0) then Some(0)
      else if IsByte(a) && IsByte(b) then Some(exp[(log[a.value] as int + log[b.value] as int) % 255])
      else None
    }

    /** Division through the tables inverts multiplication; dividing by 0 throws. */
    function GfDiv(a: nat, b: nat): (r: Option<Number>)
      requires Valid()
      reads this, exp, log
      ensures r.None? <==> b == 0
      ensures b != 0 && (a == 0 || (a < 256 && b < 256)) ==> r.value.Some? && r.value.value < 256
      ensures a < 256 && 0 < b < 256 ==> Times(r.value.value, b) == a
      ensures b != 0 && a == 0 ==> r.value == Some(0)
      ensures b != 0 && a != 0 && (a >= 256 || b >= 256) ==> r.value == None
    {
      NumberQuotient(a, b);
      if b == 0 then None
      else if a == 0 then Some(Some(0))
      else if a < 256 && b < 256 then Some(Some(exp[(log[a] as int - log[b] as int + 255) % 255]))
      else Some(None)
    }

    lemma NumberProduct(a: Number, b: Number)
      requires Valid()
      ensures IsByte(a) && IsByte(b) ==>
        Times(a.value, b.value) == if a.value == 0 || b.value == 0 then 0 else exp[(log[a.value] as int + log[b.value] as int) % 255]
    {
      hide Times;
      if IsByte(a) && IsByte(b) {
        TableProduct(a.value, b.value);
      }
    }

    lemma NumberQuotient(a: nat, b: nat)
      requires Valid()
      ensures a < 256 && 0 < b < 256 ==>
        Times(if a == 0 then 0 else exp[(log[a] as int - log[b] as int + 255) % 255], b) == a
    {
      hide Times;
      if a < 256 && 0 < b < 256 {
        TableQuotient(a, b);
      }
    }

    lemma TableProduct(a: byte, b: byte)
      requires Valid()
      ensures a == 0 || b == 0 ==> Times(a, b) == 0
      ensures a != 0 && b != 0 ==> exp[(log[a] as int + log[b] as int) % 255] == Times(a, b)
    {
      ByteGenerates();
      hide Power, Times, Xor, Generator, FullOrder, Nonzeros, Range;
      TimesUnit(a);
      TimesUnit(b);
      if a != 0 && b != 0 {
        PowerSum(BYTES, 3, log[a], log[b]);
        if log[a] as int + log[b] as int >= 255 {
          PowerCycle(BYTES, 3, log[a] as int + log[b] as int - 255);
        }
      }
    }

    lemma TableQuotient(a: byte, b: byte)
      requires Valid()
      ensures Times(0, b) == 0
      ensures a != 0 && b != 0 ==> Times(exp[(log[a] as int - log[b] as int + 255) % 255], b) == a
    {
      ByteGenerates();
      hide Power, Times, Xor, Generator, FullOrder, Nonzeros, Range;
      TimesUnit(b);
      if a != 0 && b != 0 {
        var d := (log[a] as int - log[b] as int + 255) % 255;
        PowerSum(BYTES, 3, d, log[b]);
        if log[a] < log[b] {
          PowerCycle(BYTES, 3, d + log[b] as int - 255);
        }
      }
    }
  }

  /** Walks the powers of 3, filling EXP forwards and LOG backwards. */
  method InitGf256(exp: array<byte>, log: array<byte>)
    requires exp.Length == 512 && log.Length == 256 && exp != log
    modifies exp, log
    ensures forall i :: 0 <= i < 512 ==> exp[i] == Power(BYTES, 3, i)
    ensures forall a: byte :: a != 0 ==> log[a] < 255 && Power(BYTES, 3, log[a]) == a
  {
    ByteGenerates();
    hide Power, Times, Xor, Generator, FullOrder, Nonzeros, Range;
    PowerNext(BYTES, 3, 0);
    var x: byte := 1;
    for i := 0 to 255
      invariant x == Power(BYTES, 3, i)
      invariant forall k :: 0 <= k < i ==> exp[k] == Power(BYTES, 3, k)
      invariant forall k :: 0 <= k < i ==> log[Power(BYTES, 3, k)] == k
    {
      forall k | 0 <= k < i ensures Power(BYTES, 3, k) != x {
        PowerInjective(BYTES, 3, k, i);
      }
      PowerNext(BYTES, 3, i);
      exp[i] := x;
      log[x] := i;
      x := GfMultiply(x, 3);
    }
    for i := 255 to 512
      invariant forall k :: 0 <= k < i ==> exp[k] == Power(BYTES, 3, k)
      invariant forall k :: 0 <= k < 255 ==> log[Power(BYTES, 3, k)] == k
    {
      PowerCycle(BYTES, 3, i - 255);
      exp[i] := exp[i - 255];
    }
    forall a: byte | a != 0 ensures log[a] < 255 && Power(BYTES, 3, log[a]) == a {
      var k := Logarithm(BYTES, 3, Range(255), a);
    }
  }
}
