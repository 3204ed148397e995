/** The `DataParser` helpers that prepare data for the engine: splitting CSV
    rows into evidence and label vectors, min-max scaling, the random
    train/test split and one-hot encoding. The vectors it allocates are the
    engine's `Vector`: a fresh one holds random values and its indexer throws
    outside its bounds. */
module DataParser {
  import opened Wrappers
  import opened Text
  import Rng
  import opened Vectors

  // ----- ParseData -----

  /** The optional `labelMap` dictionary, from category text to its code. */
  type LabelMap = Option<map<string, int>>

  function Min(a: nat, b: nat): nat
  {
    if a < b then a else b
  }

  /** The body of the `try`/`catch` for one column, writing into slot `k` of
      `v`. A number is stored when the slot exists. Otherwise, when a label
      map is given, the slot index moves on and the text is looked up: a
      missing key or a missing slot throws out of `ParseData`. Without a label
      map the failure is swallowed and the column is dropped. */
  function Write(f: NumberFormat, labelMap: LabelMap, v: Vector, k: nat, s: string)
    : (r: Result<(Vector, nat)>)
    ensures r.Ok? ==> |r.value.0| == |v|
    ensures r.Ok? ==> forall j :: 0 <= j < |v| && j != k ==> r.value.0[j] == v[j]
    ensures r.Ok? ==> r.value == (v, k) || (k < |v| && r.value.1 == k + 1)
    ensures r.Err? ==> f.parseReal(s).None? || k >= |v|
    ensures r.Err? ==> labelMap.Some? && (r.error == MissingKey <==> s !in labelMap.value)
    ensures r.Err? && r.error != MissingKey ==> r.error == IndexOutOfRange && k >= |v|
  {
    var p := f.parseReal(s);
    if p.Some? && k < |v| then Ok((v[k := p.value], k + 1))
    else if labelMap.None? then Ok((v, k))
    else if s !in labelMap.value then Err(MissingKey)
    else if k >= |v| then Err(IndexOutOfRange)
    else Ok((v[k := labelMap.value[s] as real], k + 1))
  }

  /** The loop state: both vectors and their next free slots. */
  datatype Row = Row(evidence: Vector, evidenceIndex: nat, labels: Vector, labelIndex: nat)

  /** The column loop of `ParseData`, from column `c` on: a column listed in
      `labelIndices` goes to the label, any other to the evidence. */
  function Columns(f: NumberFormat, labelMap: LabelMap, values: seq<string>, labelIndices: seq<int>,
                   c: nat, row: Row): (r: Result<Row>)
    ensures r.Ok? ==> |r.value.evidence| == |row.evidence| && |r.value.labels| == |row.labels|
    ensures r.Ok? ==> row.evidenceIndex <= r.value.evidenceIndex && row.labelIndex <= r.value.labelIndex
    ensures r.Ok? ==> forall j :: 0 <= j < |row.evidence| && j < row.evidenceIndex ==>
      r.value.evidence[j] == row.evidence[j]
    ensures r.Ok? ==> forall j :: 0 <= j < |row.labels| && j < row.labelIndex ==>
      r.value.labels[j] == row.labels[j]
    ensures r.Err? ==> labelMap.Some?
    decreases |values| - c
  {
    if c >= |values| then Ok(row)
    else if c in labelIndices then
      var w :- Write(f, labelMap, row.labels, row.labelIndex, values[c]);
      Columns(f, labelMap, values, labelIndices, c + 1, row.(labels := w.0, labelIndex := w.1))
    else
      var w :- Write(f, labelMap, row.evidence, row.evidenceIndex, values[c]);
      Columns(f, labelMap, values, labelIndices, c + 1, row.(evidence := w.0, evidenceIndex := w.1))
  }

  /** What one column contributes on its own: its number, its code in the
      label map, or nothing when it is not a number and there is no map. */
  function Cell(f: NumberFormat, labelMap: LabelMap, s: string): (r: Result<seq<real>>)
    ensures r.Ok? ==> |r.value| <= 1
    ensures r.Err? ==> r.error == MissingKey
  {
    var p := f.parseReal(s);
    if p.Some? then Ok([p.value])
    else if labelMap.None? then Ok([])
    else if s in labelMap.value then Ok([labelMap.value[s] as real])
    else Err(MissingKey)
  }

  /** The values of the first `c` columns of one side (the label side when
      `labelSide` holds), in column order. */
  function Cells(f: NumberFormat, labelMap: LabelMap, values: seq<string>, labelIndices: seq<int>,
                 labelSide: bool, c: nat): Result<seq<real>>
    requires c <= |values|
  {
    if c == 0 then Ok([])
    else
      var prev :- Cells(f, labelMap, values, labelIndices, labelSide, c - 1);
      if (c - 1 in labelIndices) == labelSide then
        var x :- Cell(f, labelMap, values[c - 1]);
        Ok(prev + x)
      else Ok(prev)
  }

  /** `init` with its first slots overwritten by `xs`, as far as it reaches. */
  function Fill(init: Vector, xs: seq<real>): (r: Vector)
    ensures |r| == |init|
    ensures Starts(r, xs)
    ensures forall k :: |xs| <= k < |init| ==> r[k] == init[k]
  {
    if |xs| < |init| then xs + init[|xs|..] else xs[..|init|]
  }

  /** The first slots of `v` hold `xs`, as far as both reach. */
  predicate Starts(v: Vector, xs: seq<real>)
  {
    forall k :: 0 <= k < |v| && k < |xs| ==> v[k] == xs[k]
  }

  /** Whether the columns fit vectors of `ne` evidence and `nl` label slots:
      every column has a value, and with a label map no side overflows. */
  predicate Fits(f: NumberFormat, labelMap: LabelMap, values: seq<string>, labelIndices: seq<int>,
                 ne: nat, nl: nat)
  {
    var ev := Cells(f, labelMap, values, labelIndices, false, |values|);
    var lab := Cells(f, labelMap, values, labelIndices, true, |values|);
    && ev.Ok? && lab.Ok?
    && (labelMap.Some? ==> |ev.value| <= ne && |lab.value| <= nl)
  }

  /** The loop state after the first `c` columns, as the reference describes it. */
  predicate Reached(f: NumberFormat, labelMap: LabelMap, values: seq<string>, labelIndices: seq<int>,
                    c: nat, row: Row, e0: Vector, l0: Vector)
    requires c <= |values|
  {
    var ev := Cells(f, labelMap, values, labelIndices, false, c);
    var lab := Cells(f, labelMap, values, labelIndices, true, c);
    && ev.Ok? && lab.Ok?
    && (labelMap.Some? ==> |ev.value| <= |e0| && |lab.value| <= |l0|)
    && row == Row(Fill(e0, ev.value), Min(|ev.value|, |e0|), Fill(l0, lab.value), Min(|lab.value|, |l0|))
  }

  lemma FillMore(init: Vector, xs: seq<real>, ys: seq<real>)
    requires |ys| <= 1
    ensures |xs| < |init| && |ys| == 1 ==> Fill(init, xs)[|xs| := ys[0]] == Fill(init, xs + ys)
    ensures |xs| >= |init| || |ys| == 0 ==> Fill(init, xs) == Fill(init, xs + ys)
  {
    if |ys| == 0 {
      assert xs + ys == xs;
    } else if |xs| >= |init| {
      assert (xs + ys)[..|init|] == xs[..|init|];
    }
  }

  /** One column written by the loop matches one column added to the reference. */
  lemma WriteCell(f: NumberFormat, labelMap: LabelMap, init: Vector, xs: seq<real>, s: string)
    requires labelMap.Some? ==> |xs| <= |init|
    ensures var w := Write(f, labelMap, Fill(init, xs), Min(|xs|, |init|), s);
      var x := Cell(f, labelMap, s);
      && (w.Ok? <==> x.Ok? && (labelMap.Some? ==> |xs| + |x.value| <= |init|))
      && (w.Ok? ==> w.value == (Fill(init, xs + x.value), Min(|xs + x.value|, |init|)))
  {
    var x := Cell(f, labelMap, s);
    if x.Ok? {
      FillMore(init, xs, x.value);
    }
  }

  /** A later prefix of columns has a value only if every earlier one has,
      and then it holds at least as many numbers. */
  lemma {:induction false} CellsGrow(f: NumberFormat, labelMap: LabelMap, values: seq<string>,
                                     labelIndices: seq<int>, labelSide: bool, c: nat, n: nat)
    requires c <= n <= |values|
    requires Cells(f, labelMap, values, labelIndices, labelSide, n).Ok?
    ensures Cells(f, labelMap, values, labelIndices, labelSide, c).Ok?
    ensures |Cells(f, labelMap, values, labelIndices, labelSide, c).value|
         <= |Cells(f, labelMap, values, labelIndices, labelSide, n).value|
    decreases n
  {
    if c < n {
      CellsGrow(f, labelMap, values, labelIndices, labelSide, c, n - 1);
    }
  }

  /** From a state the reference describes, the loop ends in the state the
      reference describes for all the columns, and fails exactly when the
      columns do not fit. */
  lemma {:induction false} ColumnsFromReached(f: NumberFormat, labelMap: LabelMap, values: seq<string>,
                                              labelIndices: seq<int>, c: nat, row: Row, e0: Vector, l0: Vector)
    requires c <= |values| && Reached(f, labelMap, values, labelIndices, c, row, e0, l0)
    ensures var r := Columns(f, labelMap, values, labelIndices, c, row);
      && (r.Ok? <==> Fits(f, labelMap, values, labelIndices, |e0|, |l0|))
      && (r.Ok? ==>
            && r.value.evidence == Fill(e0, Cells(f, labelMap, values, labelIndices, false, |values|).value)
            && r.value.labels == Fill(l0, Cells(f, labelMap, values, labelIndices, true, |values|).value))
    decreases |values| - c
  {
    if c < |values| {
      var side := c in labelIndices;
      var mine := Cells(f, labelMap, values, labelIndices, side, c).value;
      var init := if side then l0 else e0;
      var v := if side then row.labels else row.evidence;
      var k := if side then row.labelIndex else row.evidenceIndex;
      assert v == Fill(init, mine) && k == Min(|mine|, |init|);
      WriteCell(f, labelMap, init, mine, values[c]);
      var w := Write(f, labelMap, v, k, values[c]);
      assert Cells(f, labelMap, values, labelIndices, !side, c + 1)
          == Cells(f, labelMap, values, labelIndices, !side, c);
      if w.Err? {
        if Cells(f, labelMap, values, labelIndices, side, |values|).Ok? {
          CellsGrow(f, labelMap, values, labelIndices, side, c + 1, |values|);
        }
      } else {
        var row' := if side then row.(labels := w.value.0, labelIndex := w.value.1)
                    else row.(evidence := w.value.0, evidenceIndex := w.value.1);
        assert Reached(f, labelMap, values, labelIndices, c + 1, row', e0, l0);
        ColumnsFromReached(f, labelMap, values, labelIndices, c + 1, row', e0, l0);
      }
    }
  }

  /** The numbers of a line's evidence columns, and of its label columns. */
  function EvidenceOf(f: NumberFormat, labelMap: LabelMap, values: seq<string>, labelIndices: seq<int>)
    : Result<seq<real>>
  {
    Cells(f, labelMap, values, labelIndices, false, |values|)
  }

  function LabelOf(f: NumberFormat, labelMap: LabelMap, values: seq<string>, labelIndices: seq<int>)
    : Result<seq<real>>
  {
    Cells(f, labelMap, values, labelIndices, true, |values|)
  }

  /** A line `ParseData` accepts: enough columns for the label slots, and
      columns that fit. */
  predicate LineFits(f: NumberFormat, labelMap: LabelMap, line: string, labelIndices: seq<int>)
  {
    var values := Split(line, ',');
    |values| >= |labelIndices| && Fits(f, labelMap, values, labelIndices, |values| - |labelIndices|, |labelIndices|)
  }

  /** `evidence` and `labels` are what the line's columns give: the evidence
      has a slot for every column that is not a label column, the label one
      for every label index, and each holds its columns' numbers in column
      order from its first slot on (any slot left over keeps its random value). */
  predicate RowFrom(f: NumberFormat, labelMap: LabelMap, labelIndices: seq<int>, line: string,
                    evidence: Vector, labels: Vector)
  {
    var values := Split(line, ',');
    && |values| >= |labelIndices|
    && |evidence| == |values| - |labelIndices|
    && |labels| == |labelIndices|
    && EvidenceOf(f, labelMap, values, labelIndices).Ok?
    && LabelOf(f, labelMap, values, labelIndices).Ok?
    && Starts(evidence, EvidenceOf(f, labelMap, values, labelIndices).value)
    && Starts(labels, LabelOf(f, labelMap, values, labelIndices).value)
  }

  /** One data line: `values.Length - labelIndices.Length` evidence slots and
      `labelIndices.Length` label slots, both allocated with random contents,
      then filled column by column. A negative evidence size fails the
      allocation. */
  function ParseLine(f: NumberFormat, labelMap: LabelMap, labelIndices: seq<int>, line: string, rng: Rng.Stream)
    : (r: Result<(Vector, Vector, Rng.Stream)>)
    ensures r.Ok? <==> LineFits(f, labelMap, line, labelIndices)
    ensures |Split(line, ',')| < |labelIndices| ==> r == Err(NegativeSize)
    ensures r.Ok? ==> RowFrom(f, labelMap, labelIndices, line, r.value.0, r.value.1)
  {
    var values := Split(line, ',');
    var e :- Vectors.Random(|values| - |labelIndices|, rng);
    var l := Vectors.Random(|labelIndices|, e.1).value;
    var (e0, l0) := (e.0, l.0);
    var start := Row(e0, 0, l0, 0);
    assert Reached(f, labelMap, values, labelIndices, 0, start, e0, l0) by {
      assert Fill(e0, []) == e0;
      assert Fill(l0, []) == l0;
    }
    ColumnsFromReached(f, labelMap, values, labelIndices, 0, start, e0, l0);
    var row :- Columns(f, labelMap, values, labelIndices, 0, start);
    Ok((row.evidence, row.labels, l.1))
  }

  /** The lines after the header, one evidence/label pair each, in order. */
  function ParseRows(f: NumberFormat, labelMap: LabelMap, labelIndices: seq<int>, lines: seq<string>,
                     rng: Rng.Stream): (r: Result<(seq<Vector>, seq<Vector>)>)
    ensures r.Ok? <==> forall i :: 0 <= i < |lines| ==> LineFits(f, labelMap, lines[i], labelIndices)
    ensures r.Ok? ==> |r.value.0| == |lines| && |r.value.1| == |lines|
    ensures r.Ok? ==> forall i :: 0 <= i < |lines| ==>
      RowFrom(f, labelMap, labelIndices, lines[i], r.value.0[i], r.value.1[i])
    decreases |lines|
  {
    if |lines| == 0 then Ok(([], []))
    else
      var first :- ParseLine(f, labelMap, labelIndices, lines[0], rng);
      var rest :- ParseRows(f, labelMap, labelIndices, lines[1..], first.2);
      assert forall i :: 1 <= i < |lines| ==> lines[i] == lines[1..][i - 1];
      Ok(([first.0] + rest.0, [first.1] + rest.1))
  }

  /** The lines of the file after its header line. */
  function DataLines(text: string): seq<string>
  {
    var lines := ReadLines(text);
    if |lines| == 0 then [] else lines[1..]
  }

  lemma DataLinesFit(f: NumberFormat, labelMap: LabelMap, labelIndices: seq<int>, text: string)
    ensures var lines := ReadLines(text);
      var body := DataLines(text);
      && (|body| == if |lines| == 0 then 0 else |lines| - 1)
      && (forall j :: 0 <= j < |body| ==> body[j] == lines[j + 1])
      && ((forall j :: 0 <= j < |body| ==> LineFits(f, labelMap, body[j], labelIndices))
          <==> forall i :: 1 <= i < |lines| ==> LineFits(f, labelMap, lines[i], labelIndices))
  {
    var lines := ReadLines(text);
    var body := DataLines(text);
    if forall j :: 0 <= j < |body| ==> LineFits(f, labelMap, body[j], labelIndices) {
      forall i | 1 <= i < |lines| ensures LineFits(f, labelMap, lines[i], labelIndices) {
        assert lines[i] == body[i - 1];
      }
    }
  }

  /** `ParseData(path, labelIndices, labelMap)` on the file's text: the header
      line is skipped and every later line gives one evidence/label pair, in
      file order. */
  function ParseData(f: NumberFormat, text: string, labelIndices: seq<int>, labelMap: LabelMap, rng: Rng.Stream)
    : (r: Result<(seq<Vector>, seq<Vector>)>)
    ensures var lines := ReadLines(text);
      r.Ok? <==> forall i :: 1 <= i < |lines| ==> LineFits(f, labelMap, lines[i], labelIndices)
    ensures var lines := ReadLines(text);
      r.Ok? ==> |r.value.0| == |r.value.1| == if |lines| == 0 then 0 else |lines| - 1
    ensures var lines := ReadLines(text);
      r.Ok? ==> forall i :: 0 <= i < |r.value.0| ==>
        RowFrom(f, labelMap, labelIndices, lines[i + 1], r.value.0[i], r.value.1[i])
  {
    DataLinesFit(f, labelMap, labelIndices, text);
    ParseRows(f, labelMap, labelIndices, DataLines(text), rng)
  }

  // ----- Linearize -----

  /** A value of C#'s `int`. */
  predicate IsInt32(x: int)
  {
    -0x8000_0000 <= x < 0x8000_0000
  }

  /** The `int` that 32-bit arithmetic leaves for the exact result `x`. */
  function Wrap32(x: int): (r: int)
    ensures IsInt32(r)
    ensures IsInt32(x) ==> r == x
    ensures (x - r) % 0x1_0000_0000 == 0
  {
    (x + 0x8000_0000) % 0x1_0000_0000 - 0x8000_0000
  }

  /** `Linearize(vector, minValue, maxValue)`: every value shifted by
      `minValue` and divided by `maxValue - minValue`, the difference taken in
      `int` arithmetic. Scaling the result back gives the input. */
  function Linearize(v: Vector, minValue: int, maxValue: int): (r: Vector)
    requires IsInt32(minValue) && IsInt32(maxValue) && Wrap32(maxValue - minValue) != 0
    ensures |r| == |v|
    ensures forall i :: 0 <= i < |v| ==>
      r[i] * Wrap32(maxValue - minValue) as real + minValue as real == v[i]
  {
    var d := Wrap32(maxValue - minValue) as real;
    seq(|v|, i requires 0 <= i < |v| => (v[i] - minValue as real) / d)
  }

  /** A value within [minValue, maxValue] lands in [0, 1], as long as the
      difference fits an `int`. */
  lemma LinearizeInUnit(v: Vector, minValue: int, maxValue: int)
    requires IsInt32(minValue) && IsInt32(maxValue) && minValue < maxValue
    requires IsInt32(maxValue - minValue)
    requires forall i :: 0 <= i < |v| ==> minValue as real <= v[i] <= maxValue as real
    ensures forall i :: 0 <= i < |Linearize(v, minValue, maxValue)| ==>
      0.0 <= Linearize(v, minValue, maxValue)[i] <= 1.0
  {
    var r := Linearize(v, minValue, maxValue);
    var d := (maxValue - minValue) as real;
    forall i | 0 <= i < |r| ensures 0.0 <= r[i] <= 1.0 {
      assert r[i] == (v[i] - minValue as real) / d;
      FractionOfRange(v[i] - minValue as real, d);
    }
  }

  /** A share of a positive whole lies in [0, 1]. */
  lemma FractionOfRange(p: real, d: real)
    requires 0.0 <= p <= d && 0.0 < d
    ensures 0.0 <= p / d <= 1.0
  {
    assert p / d * d == p;
    assert d / d == 1.0;
  }

  /** When the difference does not fit an `int` it wraps, and a value inside
      the range can leave [0, 1]: scaling 1 over [-1, 2147483647] divides 2
      by -2147483648. */
  lemma LinearizeWraps()
    ensures Linearize([1.0], -1, 0x7FFF_FFFF) == [-1.0 / 1073741824.0]
  {
    assert Wrap32(0x7FFF_FFFF - (-1)) == -0x8000_0000;
    var r := Linearize([1.0], -1, 0x7FFF_FFFF);
    assert r[0] == 2.0 / -2147483648.0;
  }

  /** The scaling as evidently meant: the difference `maxValue - minValue`
      taken exactly, so that it never changes sign. */
  function LinearizeExact(v: Vector, minValue: int, maxValue: int): (r: Vector)
    requires IsInt32(minValue) && IsInt32(maxValue) && minValue != maxValue
    ensures |r| == |v|
    ensures forall i :: 0 <= i < |v| ==>
      r[i] * (maxValue - minValue) as real + minValue as real == v[i]
  {
    var d := (maxValue - minValue) as real;
    seq(|v|, i requires 0 <= i < |v| => (v[i] - minValue as real) / d)
  }

  /** With the exact difference, every value within [minValue, maxValue]
      lands in [0, 1], for every pair of `int` bounds. */
  lemma LinearizeExactInUnit(v: Vector, minValue: int, maxValue: int)
    requires IsInt32(minValue) && IsInt32(maxValue) && minValue < maxValue
    requires forall i :: 0 <= i < |v| ==> minValue as real <= v[i] <= maxValue as real
    ensures forall i :: 0 <= i < |LinearizeExact(v, minValue, maxValue)| ==>
      0.0 <= LinearizeExact(v, minValue, maxValue)[i] <= 1.0
  {
    var r := LinearizeExact(v, minValue, maxValue);
    var d := (maxValue - minValue) as real;
    forall i | 0 <= i < |r| ensures 0.0 <= r[i] <= 1.0 {
      assert r[i] == (v[i] - minValue as real) / d;
      FractionOfRange(v[i] - minValue as real, d);
    }
  }

  /** The two scalings agree exactly when the difference fits an `int`. */
  lemma LinearizeExactAgrees(v: Vector, minValue: int, maxValue: int)
    requires IsInt32(minValue) && IsInt32(maxValue) && IsInt32(maxValue - minValue) && minValue != maxValue
    ensures Linearize(v, minValue, maxValue) == LinearizeExact(v, minValue, maxValue)
  {
  }

  /** `Linearize(ref data, minValue, maxValue)`: every vector scaled in place. */
  function LinearizeAll(data: seq<Vector>, minValue: int, maxValue: int): (r: seq<Vector>)
    requires IsInt32(minValue) && IsInt32(maxValue) && Wrap32(maxValue - minValue) != 0
    ensures |r| == |data|
    ensures forall i :: 0 <= i < |data| ==> |r[i]| == |data[i]|
    ensures forall i, j :: 0 <= i < |data| && 0 <= j < |data[i]| ==>
      r[i][j] * Wrap32(maxValue - minValue) as real + minValue as real == data[i][j]
  {
    seq(|data|, i requires 0 <= i < |data| => Linearize(data[i], minValue, maxValue))
  }

  // ----- TrainTestSplit -----

  /** `(int) x`: the fraction is dropped, rounding toward zero. */
  function Truncate(x: real): (r: int)
    ensures 0.0 <= x ==> r as real <= x < r as real + 1.0
    ensures x < 0.0 ==> r as real - 1.0 < x <= r as real
  {
    if x >= 0.0 then x.Floor else -((-x).Floor)
  }

  /** `List.RemoveAt(index)`. */
  function RemoveAt<T>(s: seq<T>, index: nat): (r: seq<T>)
    requires index < |s|
    ensures |r| == |s| - 1
    ensures multiset(r) + multiset{s[index]} == multiset(s)
  {
    assert s == s[..index] + [s[index]] + s[index + 1..];
    s[..index] + s[index + 1..]
  }

  /** `picks` are the results of `rnd.Next(indices.Count)` over a list that
      starts with `n` entries and loses one per pick. */
  predicate Picks(picks: seq<nat>, n: nat)
  {
    |picks| == n && forall t :: 0 <= t < n ==> picks[t] < n - t
  }

  lemma PicksTail(picks: seq<nat>, n: nat)
    requires n > 0 && Picks(picks, n)
    ensures Picks(picks[1..], n - 1)
  {
    forall t | 0 <= t < n - 1 ensures picks[1..][t] < n - 1 - t {
      assert picks[1..][t] == picks[t + 1];
    }
  }

  /** `items` in the order the two loops of `TrainTestSplit` take them: each
      pick chooses among the entries still in the list, which then loses it.
      The result is a reordering of `items`. */
  function Order<T>(items: seq<T>, picks: seq<nat>): (r: seq<T>)
    requires Picks(picks, |items|)
    ensures |r| == |items|
    ensures multiset(r) == multiset(items)
    decreases |items|
  {
    if |items| == 0 then []
    else
      PicksTail(picks, |items|);
      [items[picks[0]]] + Order(RemoveAt(items, picks[0]), picks[1..])
  }

  /** `0, 1, ..., n-1`, as `Enumerable.Range(0, n)` lists them. */
  function Range(n: nat): (r: seq<nat>)
    ensures |r| == n && forall i :: 0 <= i < n ==> r[i] == i
  {
    seq(n, i requires 0 <= i < n => i)
  }

  /** Every number below `n` occurs once in `Range(n)`, and nothing else does. */
  lemma {:induction false} RangeOnce(n: nat, k: int)
    ensures multiset(Range(n))[k] == if 0 <= k < n then 1 else 0
  {
    if n > 0 {
      RangeOnce(n - 1, k);
      assert Range(n) == Range(n - 1) + [n - 1];
    }
  }

  /** The split takes every original index exactly once. */
  lemma OrderUsesEveryIndexOnce(n: nat, picks: seq<nat>, k: int)
    requires Picks(picks, n)
    ensures multiset(Order<nat>(Range(n), picks))[k] == if 0 <= k < n then 1 else 0
  {
    RangeOnce(n, k);
  }

  /** Every entry taken is an entry of the list, so a bound on the list
      bounds the order. */
  lemma {:induction false} OrderBounded(idx: seq<nat>, picks: seq<nat>, bound: nat)
    requires Picks(picks, |idx|)
    requires forall t :: 0 <= t < |idx| ==> idx[t] < bound
    ensures forall t :: 0 <= t < |idx| ==> Order<nat>(idx, picks)[t] < bound
    decreases |idx|
  {
    if |idx| > 0 {
      var rest := RemoveAt(idx, picks[0]);
      PicksTail(picks, |idx|);
      assert forall t :: 0 <= t < |rest| ==> rest[t] == (if t < picks[0] then idx[t] else idx[t + 1]);
      OrderBounded(rest, picks[1..], bound);
      assert Order<nat>(idx, picks) == [idx[picks[0]]] + Order<nat>(rest, picks[1..]);
    }
  }

  /** The entries of `data` at the positions `idx` lists. */
  function Image<T>(data: seq<T>, idx: seq<nat>): (r: seq<T>)
    requires forall t :: 0 <= t < |idx| ==> idx[t] < |data|
    ensures |r| == |idx| && forall t :: 0 <= t < |idx| ==> r[t] == data[idx[t]]
  {
    seq(|idx|, t requires 0 <= t < |idx| => data[idx[t]])
  }

  lemma ImageRemoveAt<T>(data: seq<T>, idx: seq<nat>, p: nat)
    requires forall t :: 0 <= t < |idx| ==> idx[t] < |data|
    requires p < |idx|
    ensures forall t :: 0 <= t < |idx| - 1 ==> RemoveAt(idx, p)[t] < |data|
    ensures Image(data, RemoveAt(idx, p)) == RemoveAt(Image(data, idx), p)
  {
    var rest := RemoveAt(idx, p);
    assert forall t :: 0 <= t < |rest| ==> rest[t] == (if t < p then idx[t] else idx[t + 1]);
  }

  lemma ImageCons<T>(data: seq<T>, k: nat, idx: seq<nat>)
    requires k < |data| && forall t :: 0 <= t < |idx| ==> idx[t] < |data|
    ensures Image(data, [k] + idx) == [data[k]] + Image(data, idx)
  {
  }

  /** Taking the data in the order of the picked indices is picking the data. */
  lemma {:induction false} OrderImage<T>(data: seq<T>, idx: seq<nat>, picks: seq<nat>)
    requires forall t :: 0 <= t < |idx| ==> idx[t] < |data|
    requires Picks(picks, |idx|)
    ensures forall t :: 0 <= t < |idx| ==> Order<nat>(idx, picks)[t] < |data|
    ensures Image(data, Order<nat>(idx, picks)) == Order(Image(data, idx), picks)
    decreases |idx|
  {
    OrderBounded(idx, picks, |data|);
    if |idx| > 0 {
      var p := picks[0];
      var rest := RemoveAt(idx, p);
      PicksTail(picks, |idx|);
      ImageRemoveAt(data, idx, p);
      OrderImage(data, rest, picks[1..]);
      var o := Order<nat>(idx, picks);
      assert o == [idx[p]] + Order<nat>(rest, picks[1..]);
      var tail := Order<nat>(rest, picks[1..]);
      OrderBounded(rest, picks[1..], |data|);
      ImageCons(data, idx[p], tail);
      var image := Image(data, idx);
      assert Order(image, picks) == [image[p]] + Order(RemoveAt(image, p), picks[1..]);
    }
  }

  /** Each evidence next to its label. */
  function Zip(a: seq<Vector>, b: seq<Vector>): (r: seq<(Vector, Vector)>)
    requires |a| <= |b|
    ensures |r| == |a| && forall i :: 0 <= i < |a| ==> r[i] == (a[i], b[i])
  {
    seq(|a|, i requires 0 <= i < |a| => (a[i], b[i]))
  }

  /** Every index below `n` is taken at some step. */
  lemma OrderCovers(n: nat, picks: seq<nat>, k: nat)
    requires Picks(picks, n) && k < n
    ensures exists t :: 0 <= t < n && Order<nat>(Range(n), picks)[t] == k
  {
    OrderUsesEveryIndexOnce(n, picks, k);
    var o := Order<nat>(Range(n), picks);
    assert k in multiset(o);
    var t :| 0 <= t < |o| && o[t] == k;
  }

  datatype Partition = Partition(trainX: seq<Vector>, trainY: seq<Vector>, testX: seq<Vector>, testY: seq<Vector>)

  /** The four arrays the two loops fill: entry `i` of the training arrays
      comes from position `o[i]`, entry `i` of the test arrays from position
      `o[trainLength + i]`. */
  function Deal(evidence: seq<Vector>, labels: seq<Vector>, o: seq<nat>, trainLength: nat): (s: Partition)
    requires trainLength <= |o|
    requires forall t :: 0 <= t < |o| ==> o[t] < |evidence| && o[t] < |labels|
    ensures |s.trainX| == |s.trainY| == trainLength
    ensures |s.testX| == |s.testY| == |o| - trainLength
  {
    var testLength := |o| - trainLength;
    Partition(
      seq(trainLength, i requires 0 <= i < trainLength => evidence[o[i]]),
      seq(trainLength, i requires 0 <= i < trainLength => labels[o[i]]),
      seq(testLength, i requires 0 <= i < testLength => evidence[o[trainLength + i]]),
      seq(testLength, i requires 0 <= i < testLength => labels[o[trainLength + i]]))
  }

  /** Read as pairs, training set first, the dealt arrays are the pairs the
      indices `o` select, in order. */
  lemma DealImage(evidence: seq<Vector>, labels: seq<Vector>, o: seq<nat>, trainLength: nat)
    requires |evidence| <= |labels| && trainLength <= |o|
    requires forall t :: 0 <= t < |o| ==> o[t] < |evidence|
    ensures var s := Deal(evidence, labels, o, trainLength);
      Zip(s.trainX, s.trainY) + Zip(s.testX, s.testY) == Image(Zip(evidence, labels), o)
  {
    var s := Deal(evidence, labels, o, trainLength);
    var pairs := Zip(evidence, labels);
    var train := Zip(s.trainX, s.trainY);
    var test := Zip(s.testX, s.testY);
    var image := Image(pairs, o);
    assert train == image[..trainLength];
    assert test == image[trainLength..];
    assert image == image[..trainLength] + image[trainLength..];
  }

  /** Read as pairs, training set first, the dealt arrays are the examples in
      the order the picks take them. */
  lemma DealPairs(evidence: seq<Vector>, labels: seq<Vector>, picks: seq<nat>, trainLength: nat)
    requires Picks(picks, |evidence|) && |evidence| <= |labels| && trainLength <= |evidence|
    requires forall t :: 0 <= t < |evidence| ==> Order<nat>(Range(|evidence|), picks)[t] < |evidence|
    ensures var s := Deal(evidence, labels, Order<nat>(Range(|evidence|), picks), trainLength);
      Zip(s.trainX, s.trainY) + Zip(s.testX, s.testY) == Order(Zip(evidence, labels), picks)
  {
    var n := |evidence|;
    var pairs := Zip(evidence, labels);
    OrderImage(pairs, Range(n), picks);
    assert Image(pairs, Range(n)) == pairs;
    DealImage(evidence, labels, Order<nat>(Range(n), picks), trainLength);
  }

  /** Some drawn index lacks a label exactly when there are fewer labels than
      examples. */
  lemma MissingLabelFound(n: nat, picks: seq<nat>, m: nat)
    requires Picks(picks, n)
    requires forall t :: 0 <= t < n ==> Order<nat>(Range(n), picks)[t] < n
    ensures (exists t :: 0 <= t < n && Order<nat>(Range(n), picks)[t] >= m) <==> n > m
  {
    if n > m {
      OrderCovers(n, picks, m);
    }
  }

  /** `TrainTestSplit(evidence, labels, trainSize)`, with the random choices
      given as `picks`. The first `(int)(n * trainSize)` examples drawn form
      the training set, the rest the test set; a negative length fails the
      array allocation, and a label array shorter than the evidence fails at
      the first missing label. */
  function TrainTestSplit(evidence: seq<Vector>, labels: seq<Vector>, trainSize: real, picks: seq<nat>)
    : (r: Result<Partition>)
    requires -2147483648.0 < |evidence| as real * trainSize < 2147483648.0
    requires Picks(picks, |evidence|)
    ensures var trainLength := Truncate(|evidence| as real * trainSize);
      r.Ok? <==> 0 <= trainLength <= |evidence| <= |labels|
    ensures var trainLength := Truncate(|evidence| as real * trainSize);
      !(0 <= trainLength <= |evidence|) ==> r == Err(NegativeSize)
    ensures r.Ok? ==> var trainLength := Truncate(|evidence| as real * trainSize);
      && |r.value.trainX| == |r.value.trainY| == trainLength
      && |r.value.testX| == |r.value.testY| == |evidence| - trainLength
    ensures r.Ok? ==>
      Zip(r.value.trainX, r.value.trainY) + Zip(r.value.testX, r.value.testY)
        == Order(Zip(evidence, labels), picks)
    ensures r.Ok? ==>
      multiset(Zip(r.value.trainX, r.value.trainY) + Zip(r.value.testX, r.value.testY))
        == multiset(Zip(evidence, labels))
  {
    var n := |evidence|;
    var trainLength := Truncate(|evidence| as real * trainSize);
    if trainLength < 0 || n - trainLength < 0 then Err(NegativeSize)
    else
      var o := Order<nat>(Range(n), picks);
      OrderBounded(Range(n), picks, n);
      MissingLabelFound(n, picks, |labels|);
      if exists t :: 0 <= t < n && o[t] >= |labels| then Err(IndexOutOfRange)
      else
        var s := Deal(evidence, labels, o, trainLength);
        DealPairs(evidence, labels, picks, trainLength);
        assert multiset(Zip(s.trainX, s.trainY) + Zip(s.testX, s.testY)) == multiset(Zip(evidence, labels));
        Ok(s)
  }

  // ----- OneHotEncode -----

  /** `OneHotEncode(target, classes)`: `classes` slots, slot `i` holding 1 when
      `label[0] == i` and 0 otherwise. A negative size fails the allocation;
      `label[0]` is read once per slot, so an empty target fails only when
      there is a slot to fill. */
  function OneHot(target: Vector, classes: int): (r: Result<Vector>)
    ensures r.Ok? <==> classes == 0 || (classes > 0 && |target| > 0)
    ensures classes < 0 ==> r == Err(NegativeSize)
    ensures classes > 0 && |target| == 0 ==> r == Err(IndexOutOfRange)
    ensures r.Ok? ==> |r.value| == classes
    ensures r.Ok? ==> forall i :: 0 <= i < classes ==> r.value[i] == 0.0 || r.value[i] == 1.0
  {
    if classes < 0 then Err(NegativeSize)
    else if classes == 0 then Ok([])
    else if |target| == 0 then Err(IndexOutOfRange)
    else Ok(seq(classes, i requires 0 <= i < classes => if target[0] == i as real then 1.0 else 0.0))
  }

  /** The class a target value names: a whole number in `[0, classes)`. */
  predicate IsClass(x: real, classes: int)
  {
    x.Floor as real == x && 0 <= x.Floor < classes
  }

  /** The number of slots holding 1. */
  function Ones(v: Vector): (r: nat)
    ensures r <= |v|
  {
    if |v| == 0 then 0
    else Ones(v[..|v| - 1]) + (if v[|v| - 1] == 1.0 then 1 else 0)
  }

  /** Decoding: the first slot holding 1, if any. */
  function HotIndex(v: Vector): (r: Option<nat>)
    ensures r.Some? ==> r.value < |v| && v[r.value] == 1.0
    ensures r.Some? ==> forall j :: 0 <= j < r.value ==> v[j] != 1.0
    ensures r.None? ==> forall j :: 0 <= j < |v| ==> v[j] != 1.0
  {
    if |v| == 0 then None
    else if v[0] == 1.0 then Some(0)
    else match HotIndex(v[1..])
      case Some(k) => Some(k + 1)
      case None => None
  }

  lemma {:induction false} OnesOfPrefix(target: Vector, classes: nat, k: nat)
    requires |target| > 0 && k <= classes
    ensures var v := OneHot(target, classes).value;
      Ones(v[..k]) == if IsClass(target[0], classes) && target[0].Floor < k then 1 else 0
  {
    var v := OneHot(target, classes).value;
    if k > 0 {
      OnesOfPrefix(target, classes, k - 1);
      assert v[..k][..k - 1] == v[..k - 1];
    }
  }

  /** A target that names a class encodes to a vector with a single 1, in the
      slot of that class, which decoding recovers; any other target (a
      fraction, a negative number, one past the last class) encodes to all
      zeros. */
  lemma OneHotDecodes(target: Vector, classes: int)
    requires classes > 0 && |target| > 0
    ensures var v := OneHot(target, classes).value;
      IsClass(target[0], classes) ==> Ones(v) == 1 && HotIndex(v) == Some(target[0].Floor as nat)
    ensures var v := OneHot(target, classes).value;
      !IsClass(target[0], classes) ==> Ones(v) == 0 && HotIndex(v) == None
  {
    var v := OneHot(target, classes).value;
    OnesOfPrefix(target, classes, classes);
    assert v[..classes] == v;
    if IsClass(target[0], classes) {
      assert v[target[0].Floor] == 1.0;
    }
  }

  /** Encoding the class `k` as a one-element target and decoding it gives `k`
      back. */
  lemma OneHotRoundTrip(k: nat, classes: nat)
    requires k < classes
    ensures OneHot([k as real], classes).Ok?
    ensures HotIndex(OneHot([k as real], classes).value) == Some(k)
  {
    assert IsClass([k as real][0], classes);
    OneHotDecodes([k as real], classes);
  }

  /** The array overload of `OneHotEncode`, from entry `i` on: each entry is
      replaced by its encoding in turn, and the first failure stops the loop
      with the entries before it already replaced. */
  function OneHotFrom(labels: seq<Vector>, classes: int, i: nat): (r: (seq<Vector>, Outcome))
    requires i <= |labels|
    ensures |r.0| == |labels|
    ensures r.1.Ok? <==> forall k :: i <= k < |labels| ==> OneHot(labels[k], classes).Ok?
    ensures forall k :: 0 <= k < i ==> r.0[k] == labels[k]
    decreases |labels| - i
  {
    if i == |labels| then (labels, Done)
    else match OneHot(labels[i], classes)
      case Err(e) => (labels, Err(e))
      case Ok(v) =>
        var next := labels[i := v];
        assert forall k :: i < k < |labels| ==> next[k] == labels[k];
        OneHotFrom(next, classes, i + 1)
  }

  /** Every label from `i` through `k` can be encoded. */
  predicate EncodableThrough(labels: seq<Vector>, classes: int, i: nat, k: nat)
    requires k < |labels|
  {
    forall j :: i <= j <= k ==> OneHot(labels[j], classes).Ok?
  }

  /** Entry `k` from `i` on ends encoded when every entry from `i` through `k`
      can be encoded, and is left as it was otherwise: the loop stops at the
      first failure. */
  lemma {:induction false} OneHotFromEntry(labels: seq<Vector>, classes: int, i: nat, k: nat)
    requires i <= k < |labels|
    ensures EncodableThrough(labels, classes, i, k) ==>
      OneHotFrom(labels, classes, i).0[k] == OneHot(labels[k], classes).value
    ensures !EncodableThrough(labels, classes, i, k) ==> OneHotFrom(labels, classes, i).0[k] == labels[k]
    decreases |labels| - i
  {
    var e := OneHot(labels[i], classes);
    if e.Ok? && k > i {
      var next := labels[i := e.value];
      OneHotFromEntry(next, classes, i + 1, k);
      assert forall j :: i < j < |labels| ==> next[j] == labels[j];
      assert EncodableThrough(labels, classes, i, k) <==> EncodableThrough(next, classes, i + 1, k);
    }
  }

  /** Read over every entry from `i` on. */
  lemma OneHotFromEntries(labels: seq<Vector>, classes: int, i: nat)
    requires i <= |labels|
    ensures forall k :: i <= k < |labels| && EncodableThrough(labels, classes, i, k) ==>
      OneHotFrom(labels, classes, i).0[k] == OneHot(labels[k], classes).value
    ensures forall k :: i <= k < |labels| && !EncodableThrough(labels, classes, i, k) ==>
      OneHotFrom(labels, classes, i).0[k] == labels[k]
  {
    forall k | i <= k < |labels| {
      OneHotFromEntry(labels, classes, i, k);
    }
  }

  /** `OneHotEncode(labels, classes)` on every entry of the array. */
  function OneHotAll(labels: seq<Vector>, classes: int): (r: (seq<Vector>, Outcome))
    ensures |r.0| == |labels|
    ensures r.1.Ok? <==> |labels| == 0 || classes == 0 || (classes > 0 && forall k :: 0 <= k < |labels| ==> |labels[k]| > 0)
    ensures r.1.Ok? ==> forall k :: 0 <= k < |labels| ==> r.0[k] == OneHot(labels[k], classes).value
  {
    OneHotFromEntries(labels, classes, 0);
    OneHotFrom(labels, classes, 0)
  }
}
