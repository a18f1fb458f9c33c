/** Splitting a secret into shares and recombining a quorum of them. */
module Shamir {
  import opened Wrappers
  import opened Bytes
  import opened Cyclic
  import opened Fields
  import opened GF256
  import opened GaloisTables
  import opened Interpolation

  datatype Share = Share(index: nat, data: bytes)

  datatype ShamirError = ThresholdTooSmall | TooFewShares | NoShares | DivisionByZero

  /** Random coefficients: the i-th one drawn for a byte position. */
  type Draw = (nat, nat) -> byte

  // ---------- Specification ----------

  /** The polynomial that hides one byte of the secret. */
  function Coefficients(secret: bytes, b: nat, threshold: nat, draw: Draw): (c: seq<byte>)
    requires b < |secret| && threshold >= 1
    ensures |c| == threshold && c[0] == secret[b]
  {
    [secret[b]] + seq(threshold - 1, k requires k >= 0 => draw(b, k + 1))
  }

  /** At a point outside the field no product is defined, and only the constant is left. */
  function EvalAt(coeffs: seq<byte>, x: nat): byte {
    if x < 256 then Eval(BYTES, coeffs, x) else Constant(BYTES, coeffs)
  }

  function ShareOf(secret: bytes, threshold: nat, draw: Draw, x: nat): Share
    requires threshold >= 1
  {
    Share(x, seq(|secret|, b requires 0 <= b < |secret| => EvalAt(Coefficients(secret, b, threshold, draw), x)))
  }

  function Split(secret: bytes, threshold: int, shares: int, draw: Draw): Result<seq<Share>, ShamirError> {
    if threshold < 2 then Err(ThresholdTooSmall)
    else if shares < threshold then Err(TooFewShares)
    else Ok(seq(shares, k requires 0 <= k < shares => ShareOf(secret, threshold, draw, k + 1)))
  }

  function Indices(shares: seq<Share>): (xs: seq<nat>)
    ensures |xs| == |shares| && forall i :: 0 <= i < |xs| ==> xs[i] == shares[i].index
  {
    seq(|shares|, i requires 0 <= i < |shares| => shares[i].index)
  }

  /** Every index is a field element. */
  ghost predicate InField(shares: seq<Share>) {
    forall i :: 0 <= i < |shares| ==> shares[i].index < 256
  }

  ghost function Points(shares: seq<Share>): (xs: seq<byte>)
    requires InField(shares)
    ensures |xs| == |shares| && forall i :: 0 <= i < |xs| ==> xs[i] == shares[i].index
  {
    seq(|shares|, i requires 0 <= i < |shares| => shares[i].index)
  }

  /** A share that is too short contributes nothing to the sum. */
  function ByteAt(share: Share, b: nat): byte {
    if b < |share.data| then share.data[b] else 0
  }

  function Column(shares: seq<Share>, b: nat): (ys: seq<byte>)
    ensures |ys| == |shares| && forall i :: 0 <= i < |ys| ==> ys[i] == ByteAt(shares[i], b)
  {
    seq(|shares|, i requires 0 <= i < |shares| => ByteAt(shares[i], b))
  }

  /** Interpolation at zero; an index outside the field leaves only undefined terms, unless it is alone. */
  ghost function CombinedByte(shares: seq<Share>, b: nat): byte {
    if InField(shares) then Interpolate<byte>(BYTES, Points(shares), Column(shares, b))
    else if |shares| == 1 then ByteAt(shares[0], b)
    else 0
  }

  /** The secret byte by byte; two equal indices divide by zero. */
  ghost function Combine(shares: seq<Share>): Result<bytes, ShamirError> {
    if shares == [] then Err(NoShares)
    else if shares[0].data == [] then Ok([])
    else if !Distinct(Indices(shares)) then Err(DivisionByZero)
    else Ok(seq(|shares[0].data|, b requires 0 <= b < |shares[0].data| => CombinedByte(shares, b)))
  }

  // ---------- Implementation ----------

  method EvalPoly(tables: Tables, coeffs: seq<byte>, x: nat) returns (result: byte)
    requires tables.Valid()
    ensures result == EvalAt(coeffs, x)
  {
    hide Times, Xor;
    result := 0;
    for i := |coeffs| downto 0
      invariant result == EvalAt(coeffs[i..], x)
    {
      assert coeffs[i..][1..] == coeffs[i + 1..];
      var product := tables.GfMul(Some(result), Some(x)).GetOr(0);
      ZeroLeft(coeffs[i]);
      result := Xor(product, coeffs[i]);
    }
  }

  lemma ZeroLeft(a: byte)
    ensures Xor(0, a) == a
  {
    hide *;
    XorCommutative(0, a);
    XorZero(a);
  }

  method DrawCoefficients(secret: bytes, b: nat, threshold: nat, draw: Draw) returns (coeffs: seq<byte>)
    requires b < |secret| && threshold >= 1
    ensures coeffs == Coefficients(secret, b, threshold, draw)
    ensures |coeffs| == threshold && coeffs[0] == secret[b] && forall i :: 1 <= i < threshold ==> coeffs[i] == draw(b, i)
  {
    coeffs := [secret[b]];
    for i := 1 to threshold
      invariant coeffs == [secret[b]] + seq(i - 1, k requires k >= 0 => draw(b, k + 1))
    {
      coeffs := coeffs + [draw(b, i)];
    }
  }

  /** Writes one byte position of every share. */
  method FillColumn(tables: Tables, coeffs: seq<byte>, data: array2<byte>, b: nat)
    requires tables.Valid() && tables.exp as object != data && tables.log as object != data
    requires b < data.Length1
    modifies data
    ensures tables.Valid()
    ensures forall k :: 0 <= k < data.Length0 ==> data[k, b] == EvalAt(coeffs, k + 1)
    ensures forall k, c :: 0 <= k < data.Length0 && 0 <= c < data.Length1 && c != b ==> data[k, c] == old(data[k, c])
  {
    hide EvalAt, Power;
    for x := 1 to data.Length0 + 1
      invariant tables.Valid()
      invariant forall k :: 0 <= k < x - 1 ==> data[k, b] == EvalAt(coeffs, k + 1)
      invariant forall k, c :: 0 <= k < data.Length0 && 0 <= c < data.Length1 && c != b ==> data[k, c] == old(data[k, c])
    {
      var y := EvalPoly(tables, coeffs, x);
      data[x - 1, b] := y;
    }
  }

  method SplitSecret(tables: Tables, secret: bytes, threshold: int, shares: int, draw: Draw)
    returns (r: Result<seq<Share>, ShamirError>)
    requires tables.Valid()
    ensures r == Split(secret, threshold, shares, draw)
    ensures threshold < 2 ==> r == Err(ThresholdTooSmall)
    ensures threshold >= 2 && shares < threshold ==> r == Err(TooFewShares)
    ensures 2 <= threshold <= shares ==>
      && r.Ok? && |r.value| == shares
      && forall k :: 0 <= k < shares ==> r.value[k].index == k + 1 && |r.value[k].data| == |secret|
  {
    hide EvalAt, Power, Coefficients;
    if threshold < 2 {
      return Err(ThresholdTooSmall);
    }
    if shares < threshold {
      return Err(TooFewShares);
    }
    var data := new byte[shares, |secret|];
    for b := 0 to |secret|
      invariant tables.Valid()
      invariant forall k, c :: 0 <= k < shares && 0 <= c < b ==>
        data[k, c] == EvalAt(Coefficients(secret, c, threshold, draw), k + 1)
    {
      var coeffs := DrawCoefficients(secret, b, threshold, draw);
      FillColumn(tables, coeffs, data, b);
    }
    var result: seq<Share> := [];
    for x := 1 to shares + 1
      invariant |result| == x - 1
      invariant forall k :: 0 <= k < x - 1 ==> result[k] == ShareOf(secret, threshold, draw, k + 1)
    {
      var row := seq(|secret|, c requires 0 <= c < |secret| reads data => data[x - 1, c]);
      assert row == ShareOf(secret, threshold, draw, x).data;
      result := result + [Share(x, row)];
    }
    assert result == Split(secret, threshold, shares, draw).value;
    r := Ok(result);
  }

  /** What the factor z / (x + z) of a basis value comes to in the tables. */
  lemma FactorIsRatio(x: byte, z: byte, q: byte)
    requires x != z && Times(q, Xor(x, z)) == z
    ensures q == Ratio(BYTES, x, z)
  {
    ByteField();
    hide IsField, Times, Xor;
    SumNonzero(BYTES, x, z);
    QuotientUnique(BYTES, z, Xor(x, z), q);
  }

  /** The next factor, z / (x + z), through the tables. */
  method NextFactor(tables: Tables, basis: Number, x: nat, z: nat) returns (r: Option<Number>)
    requires tables.Valid()
    ensures r.None? <==> x == z
    ensures r.Some? && x < 256 && z < 256 && IsByte(basis) ==> r.value == Some(Times(basis.value, Ratio(BYTES, x as byte, z as byte)))
    ensures r.Some? && (x >= 256 || z >= 256 || basis in {None, Some(0)}) ==> r.value in {None, Some(0)}
  {
    hide Times, Xor, Ratio, Power;
    XorNumbersRange(x, z);
    var q := tables.GfDiv(z, XorNumbers(x, z));
    if q.None? {
      return None;
    }
    if x < 256 && z < 256 {
      XorZeroExactly(x, z);
      FactorIsRatio(x, z, q.value.value);
    }
    r := Some(tables.GfMul(basis, q.value));
    if IsByte(q.value) {
      TimesUnit(q.value.value);
    }
  }

  /** The points before j other than point i. */
  ghost function Before(xs: seq<byte>, i: nat, j: nat): seq<byte>
    requires i < |xs| && j <= |xs|
  {
    if j <= i then xs[..j] else xs[..i] + xs[i + 1..j]
  }

  lemma BeforeNext(x: byte, xs: seq<byte>, i: nat, j: nat)
    requires i < |xs| && j < |xs|
    ensures j == i ==> Before(xs, i, j + 1) == Before(xs, i, j)
    ensures j != i ==> Ratios(BYTES, x, Before(xs, i, j + 1)) == Times(Ratios(BYTES, x, Before(xs, i, j)), Ratio(BYTES, x, xs[j]))
  {
    hide Times, Xor, Ratio;
    if j != i {
      var seen := Before(xs, i, j + 1);
      assert seen == Before(xs, i, j) + [xs[j]];
      assert seen[..|seen| - 1] == Before(xs, i, j);
    }
  }

  /** One basis value, multiplying the factors of all other points in order. */
  method BasisValue(tables: Tables, shares: seq<Share>, i: nat) returns (r: Option<Number>)
    requires tables.Valid() && i < |shares|
    ensures r.None? <==> exists j :: 0 <= j < |shares| && j != i && shares[j].index == shares[i].index
    ensures r.Some? && InField(shares) ==> r.value == Some(Basis(BYTES, Points(shares), i))
    ensures r.Some? && !InField(shares) && |shares| > 1 ==> r.value in {None, Some(0)}
    ensures |shares| == 1 ==> r == Some(Some(1))
  {
    hide Times, Xor, Ratio, Ratios, Power, Before;
    var basis: Number := Some(1);
    ghost var inside := InField(shares);
    ghost var ps: seq<byte> := if inside then Points(shares) else seq(|shares|, _ => 0);
    var xi := shares[i].index;
    assert Before(ps, i, 0) == [] && Ratios<byte>(BYTES, ps[i], []) == 1 by { NoFactors(ps, i); }
    for j := 0 to |shares|
      invariant forall k :: 0 <= k < j && k != i ==> shares[k].index != xi
      invariant inside ==> basis == Some(Ratios(BYTES, ps[i], Before(ps, i, j)))
      invariant forall k :: 0 <= k < j && k != i && (xi >= 256 || shares[k].index >= 256) ==> basis in {None, Some(0)}
      invariant |shares| == 1 ==> basis == Some(1)
    {
      BeforeNext(ps[i], ps, i, j);
      if i == j {
        continue;
      }
      var product := NextFactor(tables, basis, xi, shares[j].index);
      if product.None? {
        return None;
      }
      basis := product.value;
    }
    assert Before(ps, i, |ps|) == Others(ps, i) by { AllBefore(ps, i); }
    assert !inside && |shares| > 1 ==> basis in {None, Some(0)} by {
      if !inside && |shares| > 1 {
        var far :| 0 <= far < |shares| && shares[far].index >= 256;
        var k := if far != i then far else if i == 0 then 1 else 0;
        assert shares[k].index >= 256 || xi >= 256;
      }
    }
    r := Some(basis);
  }

  lemma NoFactors(xs: seq<byte>, i: nat)
    requires i < |xs|
    ensures Before(xs, i, 0) == [] && Ratios<byte>(BYTES, xs[i], []) == 1
  {
  }

  lemma AllBefore(xs: seq<byte>, i: nat)
    requires i < |xs|
    ensures Before(xs, i, |xs|) == Others(xs, i)
  {
  }

  method CombineByte(tables: Tables, shares: seq<Share>, b: nat) returns (r: Option<byte>)
    requires tables.Valid() && shares != []
    ensures r.None? <==> !Distinct(Indices(shares))
    ensures r.Some? ==> r.value == CombinedByte(shares, b)
  {
    hide Times, Xor, Basis;
    ghost var xs, ys := Indices(shares), Column(shares, b);
    var value: byte := 0;
    ghost var terms: seq<byte> := [];
    for i := 0 to |shares|
      invariant forall k, j :: 0 <= k < i && 0 <= j < |shares| && j != k ==> xs[j] != xs[k]
      invariant |terms| == i && value == Total(BYTES, terms)
      invariant InField(shares) ==> forall k :: 0 <= k < i ==> terms[k] == Times(ys[k], Basis(BYTES, Points(shares), k))
      invariant !InField(shares) ==> value == if i == 1 == |shares| then ys[0] else 0
    {
      var basis := BasisValue(tables, shares, i);
      if basis.None? {
        return None;
      }
      var product := tables.GfMul(Some(ByteAt(shares[i], b)), basis.value);
      var term: byte := product.GetOr(0);
      TimesUnit(ys[i]);
      ZeroLeft(term);
      value := Xor(value, term);
      assert (terms + [term])[..i] == terms;
      terms := terms + [term];
    }
    assert InField(shares) ==> terms == Terms(BYTES, Points(shares), ys);
    r := Some(value);
  }

  /** A single share is returned as it is; a share outside the field beside others leaves zeros. */
  lemma AloneIsItself(shares: seq<Share>)
    ensures |shares| == 1 ==> forall b :: CombinedByte(shares, b) == ByteAt(shares[0], b)
    ensures |shares| > 1 && !InField(shares) ==> forall b :: CombinedByte(shares, b) == 0
  {
    if |shares| == 1 && InField(shares) {
      ByteField();
      forall b ensures CombinedByte(shares, b) == ByteAt(shares[0], b) {
        var coeffs: seq<byte> := [ByteAt(shares[0], b)];
        hide IsField, Times, Xor;
        Recombine(BYTES, Points(shares), coeffs);
        ZeroTimes(Points(shares)[0], coeffs[0]);
        assert Evals(BYTES, coeffs, Points(shares)) == Column(shares, b);
      }
    }
  }

  /** When combining fails, and what it leaves of shares that no polynomial explains. */
  lemma CombineOutcome(shares: seq<Share>)
    ensures
      var r := Combine(shares);
      && (r == Err(NoShares) <==> shares == [])
      && (r == Err(DivisionByZero) <==>
            shares != [] && shares[0].data != [] && exists i, j :: 0 <= i < j < |shares| && shares[i].index == shares[j].index)
      && (r.Ok? ==> |r.value| == |shares[0].data|)
      && (r.Ok? && |shares| == 1 ==> r.value == shares[0].data)
      && (r.Ok? && |shares| > 1 && !InField(shares) ==> forall b :: 0 <= b < |r.value| ==> r.value[b] == 0)
  {
    AloneIsItself(shares);
    assert Distinct(Indices(shares)) <==> !exists i, j :: 0 <= i < j < |shares| && shares[i].index == shares[j].index by {
      assert forall i, j :: 0 <= i < j < |shares| ==>
        (Indices(shares)[i] == Indices(shares)[j] <==> shares[i].index == shares[j].index);
    }
    hide CombinedByte, Distinct, InField;
  }

  lemma ZeroTimes(x: byte, c: byte)
    ensures Eval<byte>(BYTES, [c], x) == c
  {
    ByteField();
    assert [c] == [c] + [];
    hide IsField, Times, Xor;
    EvalSplit(BYTES, c, [], x);
    MulOneZero(BYTES, x);
    AddZero(BYTES, c);
  }

  method CombineShares(tables: Tables, shares: seq<Share>) returns (r: Result<bytes, ShamirError>)
    requires tables.Valid()
    ensures r == Combine(shares)
    ensures r == Err(NoShares) <==> shares == []
    ensures r == Err(DivisionByZero) <==>
      shares != [] && shares[0].data != [] && exists i, j :: 0 <= i < j < |shares| && shares[i].index == shares[j].index
    ensures r.Ok? ==> |r.value| == |shares[0].data|
    ensures r.Ok? && |shares| == 1 ==> r.value == shares[0].data
    ensures r.Ok? && |shares| > 1 && !InField(shares) ==> forall b :: 0 <= b < |r.value| ==> r.value[b] == 0
  {
    CombineOutcome(shares);
    hide CombinedByte, Distinct, Times, Xor;
    if |shares| == 0 {
      return Err(NoShares);
    }
    var len := |shares[0].data|;
    var out: bytes := [];
    for b := 0 to len
      invariant |out| == b
      invariant b > 0 ==> Distinct(Indices(shares))
      invariant forall c :: 0 <= c < b ==> out[c] == CombinedByte(shares, c)
    {
      var value := CombineByte(tables, shares, b);
      if value.None? {
        return Err(DivisionByZero);
      }
      out := out + [value.value];
    }
    assert len > 0 ==> Combine(shares).Ok? && out == Combine(shares).value;
    r := Ok(out);
  }

  // ---------- Properties ----------

  /** Different issued shares, in some order. */
  ghost predicate Drawn(quorum: seq<Share>, issued: seq<Share>) {
    && (forall q :: q in quorum ==> q in issued)
    && (forall i, j :: 0 <= i < j < |quorum| ==> quorum[i] != quorum[j])
  }

  /** Different issued shares carry different indices. */
  lemma DistinctShares(issued: seq<Share>, quorum: seq<Share>, secret: bytes, threshold: nat, draw: Draw)
    requires threshold >= 1
    requires forall k :: 0 <= k < |issued| ==> issued[k] == ShareOf(secret, threshold, draw, k + 1)
    requires Drawn(quorum, issued)
    ensures Distinct(Indices(quorum))
    ensures forall i :: 0 <= i < |quorum| ==>
      quorum[i].index != 0 && quorum[i] == ShareOf(secret, threshold, draw, quorum[i].index)
  {
    hide EvalAt;
    forall i | 0 <= i < |quorum| ensures quorum[i] == ShareOf(secret, threshold, draw, quorum[i].index) && quorum[i].index != 0 {
      assert quorum[i] in issued;
    }
  }

  /**
   * Any list of at least threshold different shares, in any order, recovers the
   * secret, provided every share number fits in a byte. With a share numbered
   * above 255 in the list the result is all zeros.
   */
  lemma QuorumRecoversSecret(secret: bytes, threshold: int, shares: int, draw: Draw, issued: seq<Share>, quorum: seq<Share>)
    requires Split(secret, threshold, shares, draw) == Ok(issued)
    requires Drawn(quorum, issued) && |quorum| >= threshold
    ensures Combine(quorum) == Ok(secret) <==> InField(quorum) || forall b :: 0 <= b < |secret| ==> secret[b] == 0
  {
    hide EvalAt, Interpolate, Times, Xor;
    DistinctShares(issued, quorum, secret, threshold, draw);
    if InField(quorum) {
      forall b | 0 <= b < |secret| ensures CombinedByte(quorum, b) == secret[b] {
        RecoversByte(secret, threshold, draw, quorum, b);
      }
    }
    assert |quorum[0].data| == |secret|;
    if |secret| > 0 {
      assert Combine(quorum).Ok?;
      var found := Combine(quorum).value;
      assert found == secret <==> forall b :: 0 <= b < |secret| ==> CombinedByte(quorum, b) == secret[b] by {
        assert forall b :: 0 <= b < |secret| ==> found[b] == CombinedByte(quorum, b);
      }
    }
  }

  lemma RecoversByte(secret: bytes, threshold: nat, draw: Draw, quorum: seq<Share>, b: nat)
    requires 1 <= threshold <= |quorum| && b < |secret|
    requires Distinct(Indices(quorum)) && InField(quorum)
    requires forall i :: 0 <= i < |quorum| ==> quorum[i] == ShareOf(secret, threshold, draw, quorum[i].index)
    ensures CombinedByte(quorum, b) == secret[b]
  {
    ByteField();
    hide Eval, Interpolate, IsField, Times, Xor;
    var coeffs := Coefficients(secret, b, threshold, draw);
    assert Column(quorum, b) == Evals(BYTES, coeffs, Points(quorum));
    Recombine(BYTES, Points(quorum), coeffs);
  }

  /** The draw of the further coefficients that would have produced byte b of these shares. */
  predicate Produces(candidate: byte, tail: seq<byte>, known: seq<Share>, b: nat) {
    |tail| == |known| && forall i :: 0 <= i < |known| ==> ByteAt(known[i], b) == EvalAt([candidate] + tail, known[i].index)
  }

  /** Exactly one draw would have produced these shares, were the byte the candidate. */
  ghost predicate ProducedOnce(candidate: byte, known: seq<Share>, b: nat) {
    exists tail :: Produces(candidate, tail, known, b) && forall other :: Produces(candidate, other, known, b) ==> other == tail
  }

  /** The same draws, except that the coefficients of one byte position are the given ones. */
  function Redraw(draw: Draw, b: nat, tail: seq<byte>): Draw {
    (p: nat, i: nat) => if p == b && 1 <= i <= |tail| then tail[i - 1] else draw(p, i)
  }

  /** With another byte at b and these coefficients for it, splitting issues the known shares again. */
  ghost predicate Reissues(secret: bytes, threshold: int, shares: int, draw: Draw, known: seq<Share>, b: nat, candidate: byte, tail: seq<byte>)
    requires b < |secret|
  {
    && |tail| == threshold - 1
    && var again := Split(secret[b := candidate], threshold, shares, Redraw(draw, b, tail));
       again.Ok? && forall q :: q in known ==> q in again.value
  }

  ghost predicate ReissuedOnce(secret: bytes, threshold: int, shares: int, draw: Draw, known: seq<Share>, b: nat, candidate: byte)
    requires b < |secret|
  {
    exists tail :: Reissues(secret, threshold, shares, draw, known, b, candidate, tail) &&
      forall other :: Reissues(secret, threshold, shares, draw, known, b, candidate, other) ==> other == tail
  }

  lemma RedrawnShare(secret: bytes, threshold: nat, draw: Draw, x: nat, b: nat, candidate: byte, tail: seq<byte>)
    requires b < |secret| && threshold >= 1 && |tail| == threshold - 1
    ensures
      ShareOf(secret[b := candidate], threshold, Redraw(draw, b, tail), x) == ShareOf(secret, threshold, draw, x) <==>
        ByteAt(ShareOf(secret, threshold, draw, x), b) == EvalAt([candidate] + tail, x)
  {
    hide EvalAt;
    var altered, redraw := secret[b := candidate], Redraw(draw, b, tail);
    assert Coefficients(altered, b, threshold, redraw) == [candidate] + tail;
    forall p | 0 <= p < |secret| && p != b
      ensures Coefficients(altered, p, threshold, redraw) == Coefficients(secret, p, threshold, draw)
    {
    }
    var was, now := ShareOf(secret, threshold, draw, x).data, ShareOf(altered, threshold, redraw, x).data;
    assert forall p :: 0 <= p < |secret| && p != b ==> now[p] == was[p];
    assert now[b] == was[b] ==> now == was;
  }

  lemma ReissuesExactly(secret: bytes, threshold: int, shares: int, draw: Draw, issued: seq<Share>, known: seq<Share>, b: nat,
                        candidate: byte, tail: seq<byte>)
    requires Split(secret, threshold, shares, draw) == Ok(issued)
    requires Drawn(known, issued)
    requires |known| == threshold - 1 && b < |secret|
    ensures Reissues(secret, threshold, shares, draw, known, b, candidate, tail) <==> Produces(candidate, tail, known, b)
  {
    DistinctShares(issued, known, secret, threshold, draw);
    if |tail| == threshold - 1 {
      var again := Split(secret[b := candidate], threshold, shares, Redraw(draw, b, tail)).value;
      assert Reissues(secret, threshold, shares, draw, known, b, candidate, tail) <==> forall q :: q in known ==> q in again;
      forall i | 0 <= i < |known|
        ensures known[i] in again <==> ByteAt(known[i], b) == EvalAt([candidate] + tail, known[i].index)
      {
        var x := known[i].index;
        assert known[i] in issued;
        RedrawnShare(secret, threshold, draw, x, b, candidate, tail);
        IssuedAt(secret[b := candidate], threshold, shares, Redraw(draw, b, tail), x, known[i]);
      }
      hide Split, EvalAt, ByteAt, Reissues, ShareOf;
    }
  }

  lemma IssuedAt(secret: bytes, threshold: int, shares: int, draw: Draw, x: nat, share: Share)
    requires 2 <= threshold <= shares && 1 <= x <= shares && share.index == x
    ensures share in Split(secret, threshold, shares, draw).value <==> share == ShareOf(secret, threshold, draw, x)
  {
    hide Coefficients, EvalAt;
    var issued := Split(secret, threshold, shares, draw).value;
    assert issued[x - 1] == ShareOf(secret, threshold, draw, x);
  }

  /**
   * Threshold - 1 different shares fix nothing about a byte, exactly when all
   * their numbers fit in a byte: then, whatever the byte, exactly one draw of
   * its other coefficients would have issued these same shares.
   */
  lemma FewSharesFixNothing(secret: bytes, threshold: int, shares: int, draw: Draw, issued: seq<Share>, known: seq<Share>, b: nat)
    requires Split(secret, threshold, shares, draw) == Ok(issued)
    requires Drawn(known, issued)
    requires |known| == threshold - 1 && b < |secret|
    ensures InField(known) <==> forall candidate: byte :: ReissuedOnce(secret, threshold, shares, draw, known, b, candidate)
  {
    DistinctShares(issued, known, secret, threshold, draw);
    forall candidate: byte, tail
      ensures Reissues(secret, threshold, shares, draw, known, b, candidate, tail) <==> Produces(candidate, tail, known, b)
    {
      ReissuesExactly(secret, threshold, shares, draw, issued, known, b, candidate, tail);
    }
    hide Eval, Reissues, Split, ShareOf;
    if InField(known) {
      forall candidate: byte ensures ReissuedOnce(secret, threshold, shares, draw, known, b, candidate) {
        AnyByteFits(known, b, candidate);
        hide Produces;
        var tail :| Produces(candidate, tail, known, b) && forall other :: Produces(candidate, other, known, b) ==> other == tail;
        assert Reissues(secret, threshold, shares, draw, known, b, candidate, tail);
      }
    } else {
      var i :| 0 <= i < |known| && known[i].index >= 256;
      OutsideShowsSecret(secret, threshold, draw, known[i], b);
      var wrong: byte := if secret[b] == 0 then 1 else 0;
      forall tail ensures !Produces(wrong, tail, known, b) {
        assert EvalAt([wrong] + tail, known[i].index) == wrong;
      }
      assert !ReissuedOnce(secret, threshold, shares, draw, known, b, wrong);
    }
  }

  lemma AnyByteFits(known: seq<Share>, b: nat, candidate: byte)
    requires InField(known) && Distinct(Indices(known))
    requires forall i :: 0 <= i < |known| ==> known[i].index != 0
    ensures ProducedOnce(candidate, known, b)
  {
    ByteField();
    hide IsField, Eval, Times, Xor;
    var xs, ys := Points(known), Column(known, b);
    Secrecy(BYTES, candidate, xs, ys);
    forall tail ensures Produces(candidate, tail, known, b) <==> Explains(BYTES, candidate, tail, xs, ys) {
      if |tail| == |xs| {
        var es := Evals(BYTES, [candidate] + tail, xs);
        assert Produces(candidate, tail, known, b) <==> forall i :: 0 <= i < |xs| ==> es[i] == ys[i];
      }
    }
    var tail :| Explains(BYTES, candidate, tail, xs, ys) && forall other :: Explains(BYTES, candidate, other, xs, ys) ==> other == tail;
    assert Produces(candidate, tail, known, b);
  }

  /** A share numbered above 255 is the secret itself. */
  lemma OutsideShowsSecret(secret: bytes, threshold: nat, draw: Draw, share: Share, b: nat)
    requires threshold >= 1 && share == ShareOf(secret, threshold, draw, share.index) && share.index >= 256 && b < |secret|
    ensures ByteAt(share, b) == secret[b]
  {
  }
}
