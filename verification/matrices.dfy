/** The `Matrix` class: `row` vectors of `column` values each, with
    bounds-checked row access, shape-checked arithmetic, the matrix-vector
    product and the transpose operator `~`. The source keeps `row` and `column`
    as fields of their own, so a matrix without rows still has a column count,
    which may even be negative. */
module Matrices {
  import opened Wrappers
  import opened Text
  import Rng
  import opened Vectors

  datatype Matrix = Matrix(row: nat, column: int, values: seq<Vector>)

  /** The class invariant: `row` rows, each of size `column`. */
  predicate Valid(m: Matrix)
  {
    && |m.values| == m.row
    && forall i :: 0 <= i < |m.values| ==> |m.values[i]| == m.column
  }

  /** True when two matrices have the same number of rows and columns. */
  predicate SameShape(a: Matrix, b: Matrix)
  {
    a.row == b.row && a.column == b.column
  }

  /** `n` random rows of `column` values, drawn row after row; the first row
      fails when `column` is negative. */
  function RandomRows(n: nat, column: int, rng: Rng.Stream): (r: Result<(seq<Vector>, Rng.Stream)>)
    ensures r.Ok? <==> n == 0 || column >= 0
    ensures r.Err? ==> r.error == NegativeSize
    ensures r.Ok? ==> |r.value.0| == n
    ensures r.Ok? ==> forall i :: 0 <= i < n ==> |r.value.0[i]| == column
    ensures r.Ok? && Rng.Unit(rng) ==> Rng.Unit(r.value.1)
    ensures r.Ok? && Rng.Unit(rng) ==>
      forall i, j :: 0 <= i < n && 0 <= j < column ==> -1.0 <= r.value.0[i][j] < 1.0
    decreases n
  {
    if n == 0 then Ok(([], rng))
    else
      var first :- Vectors.Random(column, rng);
      var rest := RandomRows(n - 1, column, first.1).value;
      Ok(([first.0] + rest.0, rest.1))
  }

  /** `new Matrix(row, column)`: `row` fresh random vectors of size `column`.
      A negative `row` fails the array allocation, and a negative `column`
      fails the first row's; with no rows a negative `column` is kept. */
  function Random(row: int, column: int, rng: Rng.Stream): (r: Result<(Matrix, Rng.Stream)>)
    ensures r.Ok? <==> row >= 0 && (row == 0 || column >= 0)
    ensures r.Err? ==> r.error == NegativeSize
    ensures r.Ok? ==> Valid(r.value.0) && r.value.0.row == row && r.value.0.column == column
    ensures r.Ok? && Rng.Unit(rng) ==> Rng.Unit(r.value.1)
    ensures r.Ok? && Rng.Unit(rng) ==>
      forall i, j :: 0 <= i < row && 0 <= j < column ==> -1.0 <= r.value.0.values[i][j] < 1.0
  {
    if row < 0 then Err(NegativeSize)
    else
      var rows :- RandomRows(row, column, rng);
      Ok((Matrix(row, column, rows.0), rows.1))
  }

  /** `new Matrix(row, column, init)`: there must be exactly `row` rows, each
      of size `column`; the rows are then taken as they are. */
  function FromRows(row: int, column: int, init: seq<Vector>): (r: Result<Matrix>)
    ensures r.Ok? <==> |init| == row && forall i :: 0 <= i < |init| ==> |init[i]| == column
    ensures r.Ok? ==> Valid(r.value) && r.value.values == init && r.value.column == column
    ensures r.Err? ==> r.error == SizeMismatch
  {
    if |init| != row then Err(SizeMismatch)
    else if exists i :: 0 <= i < |init| && |init[i]| != column then Err(SizeMismatch)
    else Ok(Matrix(|init|, column, init))
  }

  /** The row indexer's getter. */
  function GetRow(m: Matrix, index: int): (r: Result<Vector>)
    requires Valid(m)
    ensures r.Ok? <==> 0 <= index < m.row
    ensures r.Ok? ==> r.value == m.values[index] && |r.value| == m.column
    ensures r.Err? ==> r.error == IndexOutOfRange
  {
    if index <= -1 || index >= m.row then Err(IndexOutOfRange) else Ok(m.values[index])
  }

  /** The row indexer's setter: the index is checked first, then the size of
      the new row; only the row at `index` changes. */
  function SetRow(m: Matrix, index: int, v: Vector): (r: Result<Matrix>)
    requires Valid(m)
    ensures r.Ok? <==> 0 <= index < m.row && |v| == m.column
    ensures !(0 <= index < m.row) ==> r == Err(IndexOutOfRange)
    ensures 0 <= index < m.row && |v| != m.column ==> r == Err(SizeMismatch)
    ensures r.Ok? ==> Valid(r.value) && SameShape(r.value, m) && r.value.values[index] == v
    ensures r.Ok? ==> forall i :: 0 <= i < m.row && i != index ==> r.value.values[i] == m.values[i]
  {
    if index <= -1 || index >= m.row then Err(IndexOutOfRange)
    else if |v| != m.column then Err(SizeMismatch)
    else Ok(m.(values := m.values[index := v]))
  }

  /** `a + b`, row by row. */
  function Add(a: Matrix, b: Matrix): (r: Result<Matrix>)
    requires Valid(a) && Valid(b)
    ensures r.Ok? <==> SameShape(a, b)
    ensures r.Err? ==> r.error == SizeMismatch
    ensures r.Ok? ==> Valid(r.value) && SameShape(r.value, a)
    ensures r.Ok? ==> forall i, j :: 0 <= i < a.row && 0 <= j < a.column ==>
      r.value.values[i][j] == a.values[i][j] + b.values[i][j]
  {
    if a.row != b.row || a.column != b.column then Err(SizeMismatch)
    else Ok(Matrix(a.row, a.column,
      seq(a.row, i requires 0 <= i < a.row => Vectors.Add(a.values[i], b.values[i]).value)))
  }

  /** `a * k`; `k * a` is defined as `a * k`. */
  function Scale(a: Matrix, k: real): (r: Matrix)
    requires Valid(a)
    ensures Valid(r) && SameShape(r, a)
    ensures forall i, j :: 0 <= i < a.row && 0 <= j < a.column ==>
      r.values[i][j] == a.values[i][j] * k
  {
    Matrix(a.row, a.column, seq(a.row, i requires 0 <= i < a.row => Vectors.Scale(a.values[i], k)))
  }

  /** `a - b`, which the engine defines as `a + b * -1`. */
  function Sub(a: Matrix, b: Matrix): (r: Result<Matrix>)
    requires Valid(a) && Valid(b)
    ensures r.Ok? <==> SameShape(a, b)
    ensures r.Err? ==> r.error == SizeMismatch
    ensures r.Ok? ==> Valid(r.value) && SameShape(r.value, a)
    ensures r.Ok? ==> forall i, j :: 0 <= i < a.row && 0 <= j < a.column ==>
      r.value.values[i][j] == a.values[i][j] - b.values[i][j]
  {
    Add(a, Scale(b, -1.0))
  }

  /** `a / k`, which the engine defines as `a * (1 / k)`. */
  function Div(a: Matrix, k: real): (r: Matrix)
    requires Valid(a) && k != 0.0
    ensures Valid(r) && SameShape(r, a)
    ensures forall i, j :: 0 <= i < a.row && 0 <= j < a.column ==>
      r.values[i][j] == a.values[i][j] / k
  {
    Scale(a, 1.0 / k)
  }

  /** The matrix-vector product `a * b`: one dot product per row. */
  function MatVec(a: Matrix, b: Vector): (r: Result<Vector>)
    requires Valid(a)
    ensures r.Ok? <==> a.column == |b|
    ensures r.Err? ==> r.error == SizeMismatch
    ensures r.Ok? ==> |r.value| == a.row
    ensures r.Ok? ==> forall i :: 0 <= i < a.row ==> Dot(a.values[i], b) == Ok(r.value[i])
  {
    if a.column != |b| then Err(SizeMismatch)
    else Ok(seq(a.row, i requires 0 <= i < a.row => Dot(a.values[i], b).value))
  }

  /** The transpose `~a`. The result is allocated as a `column x row`
      matrix, which fails when the column count is negative. */
  function Transpose(a: Matrix): (r: Result<Matrix>)
    requires Valid(a)
    ensures r.Ok? <==> a.column >= 0
    ensures r.Err? ==> r.error == NegativeSize
    ensures r.Ok? ==> Valid(r.value) && r.value.row == a.column && r.value.column == a.row
    ensures r.Ok? ==> forall i, j :: 0 <= i < a.row && 0 <= j < a.column ==>
      r.value.values[j][i] == a.values[i][j]
  {
    if a.column < 0 then Err(NegativeSize)
    else
      Ok(Matrix(a.column, a.row,
        seq(a.column, j requires 0 <= j < a.column =>
          seq(a.row, i requires 0 <= i < a.row => a.values[i][j]))))
  }

  /** Transposing twice gives back the original matrix, whenever the first
      transpose succeeds. */
  lemma TransposeTwice(a: Matrix)
    requires Valid(a)
    ensures Transpose(a).Ok? ==> Transpose(Transpose(a).value) == Ok(a)
  {
    if a.column < 0 {
      return;
    }
    var t := Transpose(Transpose(a).value).value;
    forall i | 0 <= i < a.row
      ensures t.values[i] == a.values[i]
    {
      assert forall j :: 0 <= j < a.column ==> t.values[i][j] == a.values[i][j];
    }
    assert t.values == a.values;
  }

  /** Subtracting then adding back the same matrix restores the original. */
  lemma SubThenAdd(a: Matrix, b: Matrix)
    requires Valid(a) && Valid(b) && SameShape(a, b)
    ensures Add(Sub(a, b).value, b) == Ok(a)
  {
    var s := Add(Sub(a, b).value, b).value;
    forall i | 0 <= i < a.row
      ensures s.values[i] == a.values[i]
    {
      assert forall j :: 0 <= j < a.column ==> s.values[i][j] == a.values[i][j];
    }
    assert s.values == a.values;
  }

  /** The texts of the rows. */
  function RowTexts(f: NumberFormat, m: Matrix): (r: seq<string>)
    ensures |r| == |m.values|
    ensures forall i :: 0 <= i < |m.values| ==> r[i] == Vectors.Show(f, m.values[i])
  {
    seq(|m.values|, i requires 0 <= i < |m.values| => Vectors.Show(f, m.values[i]))
  }

  /** `ToString`: the rows' texts joined by "\n", no trailing newline. */
  function Show(f: NumberFormat, m: Matrix): string
  {
    Join(RowTexts(f, m), '\n')
  }

  /** Writing a matrix with `WriteLine` writes one line per row when it has
      rows, and one empty line when it has none: the rows are joined by "\n"
      whatever terminator `WriteLine` adds after the last one. */
  lemma ShowLines(f: NumberFormat, m: Matrix, nl: string, t: string)
    requires NewLine(nl) && AllOneLine(RowTexts(f, m))
    ensures |m.values| > 0 ==> ReadLines(Show(f, m) + nl + t) == RowTexts(f, m) + ReadLines(t)
    ensures |m.values| == 0 ==> ReadLines(Show(f, m) + nl + t) == [""] + ReadLines(t)
  {
    if |m.values| > 0 {
      ReadJoinedLines(RowTexts(f, m), nl, t);
    } else {
      ReadLineThenRest("", nl, t);
    }
  }
}
