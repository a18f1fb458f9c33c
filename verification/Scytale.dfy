/** The keyed columnar transposition with its length prefix. */
module Scytale {
  import opened Wrappers
  import opened Bytes
  import opened Encoding

  datatype ScytaleError = LengthOutOfRange | FrameTooShort | BodyTruncated

  // ---------- Specification ----------

  /** The rows needed for n bytes. */
  function Rows(n: nat, columns: nat): nat
    requires columns > 0
  {
    (n + columns - 1) / columns
  }

  /** The grid cell at position p, with zero padding after the data. */
  function Cell(data: bytes, p: nat): byte {
    if p < |data| then data[p] else 0
  }

  /** The grid read column by column: position k holds row k % rows of column k / rows. */
  function Transposed(data: bytes, columns: nat): (t: bytes)
    requires columns > 0
    ensures |t| == Rows(|data|, columns) * columns
  {
    var rows := Rows(|data|, columns);
    seq(rows * columns, k requires 0 <= k < rows * columns => Cell(data, GridCell(k, rows, columns)))
  }

  function GridCell(k: nat, rows: nat, columns: nat): nat {
    if rows == 0 then 0 else (k % rows) * columns + k / rows
  }

  function Encipher(data: bytes, columns: int): Result<bytes, ScytaleError> {
    if |data| >= U32_LIMIT then Err(LengthOutOfRange)
    else if columns < 2 then Ok(WriteU32(|data|) + data)
    else Ok(WriteU32(|data|) + Transposed(data, columns))
  }

  /** The grid written back column by column. */
  function Restored(body: bytes, rows: nat, columns: nat): (t: bytes)
    requires columns > 0 && |body| >= rows * columns
    ensures |t| == rows * columns
  {
    seq(rows * columns, p requires 0 <= p < rows * columns => body[InBody(p, rows, columns)])
  }

  function InBody(p: nat, rows: nat, columns: nat): (k: nat)
    requires columns > 0 && p < rows * columns
    ensures k < rows * columns
  {
    RowBound(p, rows, columns);
    CellBound(p / columns, p % columns, rows, columns);
    (p % columns) * rows + p / columns
  }

  function Decipher(data: bytes, columns: int): Result<bytes, ScytaleError> {
    if |data| < 4 then Err(FrameTooShort)
    else
      var length := ReadU32(data);
      var body := data[4..];
      if columns < 2 then Ok(if length <= |body| then body[..length] else body)
      else
        var rows := Rows(length, columns);
        if |body| < rows * columns then Err(BodyTruncated)
        else
          RowsCover(length, columns);
          Ok(Restored(body, rows, columns)[..length])
  }

  // ---------- The row and column arithmetic ----------

  lemma RowsCover(n: nat, columns: nat)
    requires columns > 0
    ensures n <= Rows(n, columns) * columns <= n + columns - 1
  {
    var m := n + columns - 1;
    assert m == columns * (m / columns) + m % columns;
    assert Rows(n, columns) * columns == columns * (m / columns);
  }

  lemma RowBound(p: nat, rows: nat, columns: nat)
    requires columns > 0 && p < rows * columns
    ensures p / columns < rows
  {
    var q := p / columns;
    assert p == columns * q + p % columns;
    MulMonotone(rows, q, columns);
  }

  lemma MulMonotone(a: int, b: int, c: nat)
    ensures a <= b ==> a * c <= b * c
  {
  }

  /** Row-major and column-major positions of the same cell. */
  lemma CellBound(row: nat, col: nat, rows: nat, columns: nat)
    requires row < rows && col < columns
    ensures col * rows + row < rows * columns
    ensures row * columns + col < rows * columns
  {
    assert col * rows + rows == (col + 1) * rows;
    assert (col + 1) * rows <= columns * rows;
    assert row * columns + columns == (row + 1) * columns;
    assert (row + 1) * columns <= rows * columns;
  }

  lemma DivMod(q: nat, d: nat, r: nat)
    requires r < d
    ensures (q * d + r) / d == q && (q * d + r) % d == r
  {
    var n := q * d + r;
    var m := n / d;
    assert n == d * m + n % d;
    MulMonotone(q + 1, m, d);
    MulMonotone(m + 1, q, d);
    assert (q + 1) * d == q * d + d && (m + 1) * d == m * d + d;
  }

  /** Reading back the column-major position of a cell finds the cell itself. */
  lemma GridInverse(p: nat, rows: nat, columns: nat)
    requires columns > 0 && p < rows * columns
    ensures GridCell(InBody(p, rows, columns), rows, columns) == p
  {
    RowBound(p, rows, columns);
    DivMod(p % columns, rows, p / columns);
    assert p == (p / columns) * columns + p % columns;
  }

  /** Deciphering undoes enciphering, for every number of columns and every length. */
  lemma RoundTrip(data: bytes, columns: int)
    requires |data| < U32_LIMIT
    ensures Encipher(data, columns).Ok? && Decipher(Encipher(data, columns).value, columns) == Ok(data)
  {
    var frame := Encipher(data, columns).value;
    if columns < 2 {
      U32RoundTrip(|data|, data);
      assert frame[4..] == data && data[..|data|] == data;
    } else {
      var body := Transposed(data, columns);
      U32RoundTrip(|data|, body);
      assert frame[4..] == body;
      var rows := Rows(|data|, columns);
      RowsCover(|data|, columns);
      var back := Restored(body, rows, columns);
      forall p | 0 <= p < |data| ensures back[p] == data[p] {
        GridInverse(p, rows, columns);
      }
      assert back[..|data|] == data;
    }
  }

  /** Position k after the length prefix holds this byte. */
  predicate Holds(frame: bytes, k: int, b: byte) {
    0 <= k < |frame| - 4 && frame[4 + k] == b
  }

  /** The strip unwound: the byte of row and column stands row places into its column, zeros fill the last row. */
  lemma ColumnsRead(data: bytes, columns: nat, row: nat, col: nat)
    requires 2 <= columns && |data| < U32_LIMIT && row < (|data| + columns - 1) / columns && col < columns
    ensures
      var rows := (|data| + columns - 1) / columns;
      var r := Encipher(data, columns);
      && r.Ok? && |r.value| == 4 + rows * columns && r.value[..4] == WriteU32(|data|)
      && Holds(r.value, col * rows + row, if row * columns + col < |data| then data[row * columns + col] else 0)
  {
    var rows := Rows(|data|, columns);
    CellBound(row, col, rows, columns);
    DivMod(col, rows, row);
  }

  /** A frame deciphers to exactly the data that stands in it column by column under its length. */
  lemma DeciphersExactly(frame: bytes, columns: nat, data: bytes)
    requires 2 <= columns
    ensures
      var rows := (|data| + columns - 1) / columns;
      Decipher(frame, columns) == Ok(data) <==>
        && |frame| >= 4 && ReadU32(frame) == |data| && |frame| - 4 >= rows * columns
        && forall p :: 0 <= p < |data| ==> Holds(frame, p % columns * rows + p / columns, data[p])
  {
    hide ReadU32, Restored, Holds;
    if |frame| >= 4 && ReadU32(frame) == |data| && |frame| - 4 >= Rows(|data|, columns) * columns {
      var rows := Rows(|data|, columns);
      var found := Restored(frame[4..], rows, columns);
      RowsCover(|data|, columns);
      forall p | 0 <= p < |data| ensures found[p] == data[p] <==> Holds(frame, p % columns * rows + p / columns, data[p]) {
        RestoredByte(frame, rows, columns, p, data[p]);
      }
      assert found[..|data|] == data <==> forall p :: 0 <= p < |data| ==> found[p] == data[p] by {
        assert forall p :: 0 <= p < |data| ==> found[..|data|][p] == found[p];
      }
    }
  }

  lemma RestoredByte(frame: bytes, rows: nat, columns: nat, p: nat, b: byte)
    requires columns > 0 && |frame| >= 4 && |frame| - 4 >= rows * columns && p < rows * columns
    ensures Restored(frame[4..], rows, columns)[p] == b <==> Holds(frame, p % columns * rows + p / columns, b)
  {
    RowBound(p, rows, columns);
    CellBound(p / columns, p % columns, rows, columns);
  }

  // ---------- Implementation ----------

  method ScytaleEncipher(data: bytes, columns: int) returns (r: Result<bytes, ScytaleError>)
    ensures r == Encipher(data, columns)
    ensures |data| >= 0x1_0000_0000 ==> r == Err(LengthOutOfRange)
    ensures |data| < 0x1_0000_0000 && columns < 2 ==> r == Ok(WriteU32(|data|) + data)
  {
    if |data| >= U32_LIMIT {
      return Err(LengthOutOfRange);
    }
    if columns < 2 {
      return Ok(WriteU32(|data|) + data);
    }
    var rows := Rows(|data|, columns);
    RowsCover(|data|, columns);
    var padded := PadGrid(data, rows * columns);
    var transposed := ReadColumns(padded, data, rows, columns);
    r := Ok(WriteU32(|data|) + transposed[..]);
  }

  method PadGrid(data: bytes, size: nat) returns (padded: array<byte>)
    requires |data| <= size
    ensures padded.Length == size && forall k :: 0 <= k < size ==> padded[k] == Cell(data, k)
  {
    padded := new byte[size](_ => 0);
    for i := 0 to |data|
      invariant forall k :: 0 <= k < i ==> padded[k] == data[k]
      invariant forall k :: i <= k < size ==> padded[k] == 0
    {
      padded[i] := data[i];
    }
  }

  method ReadColumns(padded: array<byte>, ghost data: bytes, rows: nat, columns: nat) returns (transposed: array<byte>)
    requires columns > 0 && rows == Rows(|data|, columns) && padded.Length == rows * columns
    requires forall k :: 0 <= k < padded.Length ==> padded[k] == Cell(data, k)
    ensures transposed[..] == Transposed(data, columns)
  {
    hide Transposed, Cell, Rows;
    ghost var strip := Transposed(data, columns);
    transposed := new byte[rows * columns](_ => 0);
    var idx := 0;
    for col := 0 to columns
      invariant idx == col * rows
      invariant forall k :: 0 <= k < idx && k < transposed.Length ==> transposed[k] == strip[k]
    {
      for row := 0 to rows
        invariant idx == col * rows + row
        invariant forall k :: 0 <= k < idx && k < transposed.Length ==> transposed[k] == strip[k]
      {
        CellBound(row, col, rows, columns);
        CellTransposed(data, row, col, columns);
        transposed[idx] := padded[row * columns + col];
        idx := idx + 1;
      }
      assert (col + 1) * rows == col * rows + rows;
    }
    assert idx == rows * columns;
  }

  lemma CellTransposed(data: bytes, row: nat, col: nat, columns: nat)
    requires columns > 0 && row < Rows(|data|, columns) && col < columns
    ensures
      var rows := Rows(|data|, columns);
      && col * rows + row < rows * columns
      && Transposed(data, columns)[col * rows + row] == Cell(data, row * columns + col)
  {
    var rows := Rows(|data|, columns);
    CellBound(row, col, rows, columns);
    DivMod(col, rows, row);
  }

  /** The cell is one that a column-by-column walk has passed before (col, row). */
  predicate Passed(p: nat, columns: nat, col: nat, row: nat)
    requires columns > 0
  {
    p % columns < col || (p % columns == col && p / columns < row)
  }

  method ScytaleDecipher(data: bytes, columns: int) returns (r: Result<bytes, ScytaleError>)
    ensures r == Decipher(data, columns)
    ensures |data| < 4 <==> r == Err(FrameTooShort)
    ensures |data| >= 4 && columns >= 2 ==>
      (r == Err(BodyTruncated) <==> |data| - 4 < (ReadU32(data) + columns - 1) / columns * columns)
    ensures |data| >= 4 && columns < 2 ==> r == Ok(if ReadU32(data) < |data| - 4 then data[4..4 + ReadU32(data)] else data[4..])
  {
    if |data| < 4 {
      return Err(FrameTooShort);
    }
    var length := ReadU32(data);
    var body := data[4..];
    if columns < 2 {
      assert length < |body| ==> body[..length] == data[4..4 + length];
      assert body[..|body|] == body;
      return Ok(if length <= |body| then body[..length] else body);
    }
    var rows := Rows(length, columns);
    var expected := rows * columns;
    if |body| < expected {
      return Err(BodyTruncated);
    }
    RowsCover(length, columns);
    var restored := WriteColumns(body, rows, columns);
    r := Ok(restored[..length]);
  }

  method WriteColumns(body: bytes, rows: nat, columns: nat) returns (restored: array<byte>)
    requires columns > 0 && |body| >= rows * columns
    ensures restored[..] == Restored(body, rows, columns)
  {
    hide Restored, Passed;
    ghost var grid := Restored(body, rows, columns);
    var expected := rows * columns;
    restored := new byte[expected](_ => 0);
    var idx := 0;
    assert forall p :: 0 <= p < expected ==> !Passed(p, columns, 0, 0) && Passed(p, columns, columns, 0) by { AllPassed(expected, columns); }
    for col := 0 to columns
      invariant idx == col * rows
      invariant forall p :: 0 <= p < expected && Passed(p, columns, col, 0) ==> restored[p] == grid[p]
    {
      for row := 0 to rows
        invariant idx == col * rows + row
        invariant forall p :: 0 <= p < expected && Passed(p, columns, col, row) ==> restored[p] == grid[p]
      {
        CellBound(row, col, rows, columns);
        PassedStep(row, col, rows, columns);
        CellRestored(body, row, col, rows, columns);
        restored[row * columns + col] := body[idx];
        idx := idx + 1;
      }
      assert (col + 1) * rows == col * rows + rows;
      ColumnPassed(rows, columns, col);
    }
  }

  lemma AllPassed(size: nat, columns: nat)
    requires columns > 0
    ensures forall p :: 0 <= p < size ==> !Passed(p, columns, 0, 0) && Passed(p, columns, columns, 0)
  {
  }

  lemma CellRestored(body: bytes, row: nat, col: nat, rows: nat, columns: nat)
    requires row < rows && col < columns && |body| >= rows * columns
    ensures col * rows + row < rows * columns && row * columns + col < rows * columns
    ensures Restored(body, rows, columns)[row * columns + col] == body[col * rows + row]
  {
    CellBound(row, col, rows, columns);
    DivMod(row, columns, col);
  }

  /** A whole column walked is the column after it started. */
  lemma ColumnPassed(rows: nat, columns: nat, col: nat)
    requires columns > 0
    ensures forall p :: 0 <= p < rows * columns && Passed(p, columns, col + 1, 0) ==> Passed(p, columns, col, rows)
  {
    forall p | 0 <= p < rows * columns && Passed(p, columns, col + 1, 0) ensures Passed(p, columns, col, rows) {
      RowBound(p, rows, columns);
    }
  }

  lemma PassedStep(row: nat, col: nat, rows: nat, columns: nat)
    requires row < rows && col < columns
    ensures forall p: nat :: Passed(p, columns, col, row + 1) <==> Passed(p, columns, col, row) || p == row * columns + col
  {
    DivMod(row, columns, col);
    forall p: nat | p % columns == col && p / columns == row ensures p == row * columns + col {
      assert p == columns * (p / columns) + p % columns;
    }
  }
}
