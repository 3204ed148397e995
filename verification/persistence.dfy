/** The saved-model text format of the framework's `Network`: `Save` writes
    the layer count, the layer sizes, and per layer its weight rows, its bias
    line and its activation tag, one item per line; the loading constructor
    reads the same lines back. Files become strings, `StreamWriter.WriteLine`
    and `StreamReader.ReadLine` become `WriteLines` and `ReadLines`, the
    platform's line terminator is the parameter `nl`, and numbers go through
    an abstract `NumberFormat`. */
module Persistence {
  import opened Wrappers
  import opened Text
  import Rng
  import opened Vectors
  import opened Matrices
  import opened Layers
  import opened Networks

  // ---------------------------------------------------------------------------
  // Save

  /** The sizes line's numbers: the first layer's input size, then every
      layer's output size. */
  function Sizes(layers: seq<Layer>): (r: seq<int>)
    requires |layers| > 0
    ensures |r| == |layers| + 1
    ensures Chained(layers) ==> forall k :: 0 <= k < |layers| ==> r[k] == layers[k].nodesIn
    ensures forall k :: 0 <= k < |layers| ==> r[k + 1] == layers[k].nodesOut
  {
    [layers[0].nodesIn] + seq(|layers|, k requires 0 <= k < |layers| => layers[k].nodesOut)
  }

  /** The three `WriteLine` calls for one layer: the weight matrix (its rows
      joined by "\n"), the biases and the tag, each followed by `nl`. */
  function LayerText(f: NumberFormat, nl: string, l: Layer): string
  {
    Matrices.Show(f, l.weights) + nl + Vectors.Show(f, l.biases) + nl + l.activation + nl
  }

  function LayerTexts(f: NumberFormat, nl: string, layers: seq<Layer>): string
    decreases |layers|
  {
    if |layers| == 0 then "" else LayerText(f, nl, layers[0]) + LayerTexts(f, nl, layers[1..])
  }

  /** `Save`: what the file holds when the call returns. An empty network has
      no first layer to read the input size from, so the call fails after the
      count line has been written. */
  function Save(f: NumberFormat, nl: string, n: Network): (r: (string, Outcome))
    ensures r.1.Ok? <==> |n.layers| > 0
    ensures r.1.Err? ==> r == (f.showInt(0) + nl, Err(IndexOutOfRange))
  {
    var count := f.showInt(|n.layers|) + nl;
    if |n.layers| == 0 then (count, Err(IndexOutOfRange))
    else (count + Join(ShowInts(f, Sizes(n.layers)), ' ') + nl + LayerTexts(f, nl, n.layers), Done)
  }

  // ---------------------------------------------------------------------------
  // Load

  /** `int.Parse` of every token of the sizes line. */
  function ParseInts(f: NumberFormat, tokens: seq<string>): (r: Result<seq<int>>)
    ensures r.Ok? <==> forall i :: 0 <= i < |tokens| ==> f.parseInt(tokens[i]).Some?
    ensures r.Err? ==> r.error == BadNumber
    ensures r.Ok? ==> |r.value| == |tokens|
    ensures r.Ok? ==> forall i :: 0 <= i < |tokens| ==> f.parseInt(tokens[i]) == Some(r.value[i])
    decreases |tokens|
  {
    if |tokens| == 0 then Ok([])
    else
      match f.parseInt(tokens[0])
      case None => Err(BadNumber)
      case Some(n) =>
        var rest :- ParseInts(f, tokens[1..]);
        Ok([n] + rest)
  }

  /** One weight line: token `k` is parsed and then stored at `row[k]`, so the
      row keeps its random values past the last token, and a token past the
      end of the row fails once it has been parsed. */
  function FillRow(f: NumberFormat, tokens: seq<string>, row: Vector, k: nat): (r: Result<Vector>)
    requires k <= |tokens|
    ensures r.Ok? <==>
      && (k < |tokens| ==> |tokens| <= |row|)
      && forall j :: k <= j < |tokens| ==> f.parseReal(tokens[j]).Some?
    ensures r.Err? ==> r.error == BadNumber || r.error == IndexOutOfRange
    ensures r.Ok? ==> |r.value| == |row|
    ensures r.Ok? ==> forall j :: k <= j < |tokens| ==> f.parseReal(tokens[j]) == Some(r.value[j])
    ensures r.Ok? ==> forall j :: 0 <= j < |row| && !(k <= j < |tokens|) ==> r.value[j] == row[j]
    decreases |tokens| - k
  {
    if k == |tokens| then Ok(row)
    else
      match f.parseReal(tokens[k])
      case None => Err(BadNumber)
      case Some(x) =>
        if k >= |row| then Err(IndexOutOfRange)
        else FillRow(f, tokens, row[k := x], k + 1)
  }

  /** The weight lines of one layer, one per row, each filling its row. */
  function ReadRows(f: NumberFormat, lines: seq<string>, rows: seq<Vector>, j: nat): (r: Result<seq<Vector>>)
    requires j <= |rows|
    ensures r.Ok? <==>
      && (j < |rows| ==> |rows| <= |lines|)
      && forall i :: j <= i < |rows| ==> FillRow(f, Split(lines[i], ' '), rows[i], 0).Ok?
    ensures r.Ok? ==> |r.value| == |rows| - j
    ensures r.Ok? ==> forall i :: j <= i < |rows| ==>
      FillRow(f, Split(lines[i], ' '), rows[i], 0) == Ok(r.value[i - j])
    decreases |rows| - j
  {
    if j == |rows| then Ok([])
    else if j >= |lines| then Err(MissingLine(Weights))
    else
      var row :- FillRow(f, Split(lines[j], ' '), rows[j], 0);
      var rest :- ReadRows(f, lines, rows, j + 1);
      Ok([row] + rest)
  }

  /** The bias line: entry `j` is token `j`, which must exist and parse; tokens
      past the `n`-th are ignored. */
  function ReadBiases(f: NumberFormat, tokens: seq<string>, n: nat, j: nat): (r: Result<Vector>)
    requires j <= n
    ensures r.Ok? <==>
      && (j < n ==> n <= |tokens|)
      && forall i :: j <= i < n ==> f.parseReal(tokens[i]).Some?
    ensures r.Err? ==> r.error == BadNumber || r.error == IndexOutOfRange
    ensures r.Ok? ==> |r.value| == n - j
    ensures r.Ok? ==> forall i :: j <= i < n ==> f.parseReal(tokens[i]) == Some(r.value[i - j])
    decreases n - j
  {
    if j == n then Ok([])
    else if j >= |tokens| then Err(IndexOutOfRange)
    else
      match f.parseReal(tokens[j])
      case None => Err(BadNumber)
      case Some(x) =>
        var rest :- ReadBiases(f, tokens, n, j + 1);
        Ok([x] + rest)
  }

  /** What one layer's lines yield: the layer, the lines after them and the
      random stream after the draws. */
  datatype Loaded = Loaded(layer: Layer, rest: seq<string>, rng: Rng.Stream)

  /** One iteration of the loading loop. A negative output size fails when
      the weight matrix is allocated, and so does a negative input size when
      there is a row to allocate; with no rows, a negative input size only
      fails when the layer allocates its cache, after the bias and tag lines
      have been read. Weights, then biases, then the cache are drawn at random
      before the lines overwrite them. */
  function LoadLayer(f: NumberFormat, lines: seq<string>, nodesIn: int, nodesOut: int, rng: Rng.Stream)
    : (r: Result<Loaded>)
    ensures nodesOut < 0 || (nodesOut > 0 && nodesIn < 0) ==> r == Err(NegativeSize)
    ensures r.Ok? ==> nodesOut + 2 <= |lines| && r.value.rest == lines[nodesOut + 2..]
    ensures r.Ok? ==> var l := r.value.layer;
      && l.nodesIn == nodesIn && l.nodesOut == nodesOut
      && Shaped(l) && |l.lastInput| == nodesIn
      && l.activation == lines[nodesOut + 1]
      && ReadBiases(f, Split(lines[nodesOut], ' '), nodesOut, 0) == Ok(l.biases)
    ensures r.Ok? ==> nodesIn >= 0
    ensures r.Ok? && Rng.Unit(rng) ==> Rng.Unit(r.value.rng)
  {
    var w :- Matrices.Random(nodesOut, nodesIn, rng);
    var b := Vectors.Random(nodesOut, w.1).value;
    var rows :- ReadRows(f, lines, w.0.values, 0);
    if nodesOut >= |lines| then Err(MissingLine(Biases))
    else
      var biases :- ReadBiases(f, Split(lines[nodesOut], ' '), nodesOut, 0);
      if nodesOut + 1 >= |lines| then Err(MissingLine(ActivationName))
      else
        assert forall i :: 0 <= i < nodesOut ==> |rows[i]| == nodesIn by {
          forall i | 0 <= i < nodesOut ensures |rows[i]| == nodesIn {
            assert FillRow(f, Split(lines[i], ' '), w.0.values[i], 0) == Ok(rows[i]);
          }
        }
        var weights := Matrix(nodesOut, nodesIn, rows);
        var l :- Layers.FromParts(nodesIn, nodesOut, weights, biases, lines[nodesOut + 1], b.1);
        Ok(Loaded(l.0, lines[nodesOut + 2..], l.1))
  }

  /** A loaded layer: its own shapes and a cache of its input size. */
  predicate Intact(l: Layer)
  {
    Shaped(l) && |l.lastInput| == l.nodesIn
  }

  /** The layers are intact and, from position `i` on, `sizes` lists their
      sizes. */
  predicate SizedBy(layers: seq<Layer>, sizes: seq<int>, i: nat)
  {
    && (|layers| > 0 ==> i + |layers| < |sizes|)
    && forall k :: 0 <= k < |layers| ==>
         && Intact(layers[k])
         && layers[k].nodesIn == sizes[i + k] && layers[k].nodesOut == sizes[i + k + 1]
  }

  lemma SizedByCons(l: Layer, rest: seq<Layer>, sizes: seq<int>, i: nat)
    requires i + 1 < |sizes| && Intact(l) && l.nodesIn == sizes[i] && l.nodesOut == sizes[i + 1]
    requires SizedBy(rest, sizes, i + 1)
    ensures SizedBy([l] + rest, sizes, i)
  {
    assert forall k :: 0 < k < |rest| + 1 ==> ([l] + rest)[k] == rest[k - 1];
  }

  /** Layers whose sizes come from one list feed each other. */
  lemma SizedByChained(layers: seq<Layer>, sizes: seq<int>, i: nat)
    requires SizedBy(layers, sizes, i)
    ensures Chained(layers) && Cached(layers)
  {
  }

  /** The loading loop from layer `i` to layer `count - 1`; layer `i` reads
      `sizes[i]` inputs and writes `sizes[i + 1]` outputs. */
  function LoadLayers(f: NumberFormat, lines: seq<string>, sizes: seq<int>, i: nat, count: int, rng: Rng.Stream)
    : (r: Result<seq<Layer>>)
    ensures r.Ok? ==> |r.value| == if count > i then count - i else 0
    ensures r.Ok? ==> SizedBy(r.value, sizes, i)
    decreases if count > i then count - i else 0
  {
    if i >= count then Ok([])
    else if i + 1 >= |sizes| then Err(IndexOutOfRange)
    else
      var first :- LoadLayer(f, lines, sizes[i], sizes[i + 1], rng);
      var rest :- LoadLayers(f, first.rest, sizes, i + 1, count, first.rng);
      SizedByCons(first.layer, rest, sizes, i);
      Ok([first.layer] + rest)
  }

  /** The loading constructor `Network(path)`, on the file's text. A negative
      layer count loads no layers. */
  function Load(f: NumberFormat, text: string, rng: Rng.Stream): (r: Result<Network>)
    ensures |ReadLines(text)| == 0 ==> r == Err(MissingLine(LayerCount))
    ensures |ReadLines(text)| == 1 && f.parseInt(ReadLines(text)[0]).Some? ==> r == Err(MissingLine(LayerSizes))
    ensures r.Ok? ==> WellFormed(r.value) && Cached(r.value.layers)
    ensures r.Ok? ==> var count := f.parseInt(ReadLines(text)[0]);
      count.Some? && |r.value.layers| == if count.value > 0 then count.value else 0
  {
    var lines := ReadLines(text);
    if |lines| == 0 then Err(MissingLine(LayerCount))
    else
      match f.parseInt(lines[0])
      case None => Err(BadNumber)
      case Some(count) =>
        if |lines| == 1 then Err(MissingLine(LayerSizes))
        else
          var sizes :- ParseInts(f, Split(lines[1], ' '));
          var layers :- LoadLayers(f, lines[2..], sizes, 0, count, rng);
          SizedByChained(layers, sizes, 0);
          Ok(Network(layers))
  }

  // ---------------------------------------------------------------------------
  // Round trip

  /** The first two lines `Save` writes. */
  function Header(f: NumberFormat, layers: seq<Layer>): seq<string>
    requires |layers| > 0
  {
    [f.showInt(|layers|), Join(ShowInts(f, Sizes(layers)), ' ')]
  }

  /** The lines one layer occupies in the file when it has rows. */
  function LayerLines(f: NumberFormat, l: Layer): seq<string>
  {
    RowTexts(f, l.weights) + [Vectors.Show(f, l.biases), l.activation]
  }

  function BodyLines(f: NumberFormat, layers: seq<Layer>): seq<string>
    decreases |layers|
  {
    if |layers| == 0 then [] else LayerLines(f, layers[0]) + BodyLines(f, layers[1..])
  }

  /** Every weight of the matrix renders exactly. */
  predicate ExactRows(f: NumberFormat, m: Matrix)
  {
    forall i :: 0 <= i < |m.values| ==> AllExact(f, m.values[i])
  }

  /** A layer the format can hold: it has its own shapes, inputs and outputs,
      a one-line tag, and weights and biases that render exactly. */
  predicate Storable(f: NumberFormat, l: Layer)
  {
    && Shaped(l) && l.nodesIn > 0 && l.nodesOut > 0 && OneLine(l.activation)
    && ExactRows(f, l.weights) && AllExact(f, l.biases)
  }

  predicate Saveable(f: NumberFormat, layers: seq<Layer>)
  {
    forall k :: 0 <= k < |layers| ==> Storable(f, layers[k])
  }

  /** `sizes`, from position `i` on, lists the sizes of `layers`. */
  predicate Described(sizes: seq<int>, i: nat, layers: seq<Layer>)
  {
    && |sizes| == i + |layers| + 1
    && forall k :: 0 <= k < |layers| ==>
         sizes[i + k] == layers[k].nodesIn && sizes[i + k + 1] == layers[k].nodesOut
  }

  /** The sizes line is one line and parses back to the sizes. */
  lemma SizesLine(f: NumberFormat, sizes: seq<int>)
    requires IntsRoundTrip(f) && |sizes| > 0
    ensures OneLine(Join(ShowInts(f, sizes), ' '))
    ensures ParseInts(f, Split(Join(ShowInts(f, sizes), ' '), ' ')) == Ok(sizes)
  {
    var tokens := ShowInts(f, sizes);
    forall i | 0 <= i < |tokens| ensures Token(tokens[i]) && f.parseInt(tokens[i]) == Some(sizes[i]) {
      IntToken(f, sizes[i]);
    }
    SplitJoin(tokens, ' ');
    JoinFree(tokens, ' ', '\n');
    JoinFree(tokens, ' ', '\r');
    var r := ParseInts(f, tokens);
    assert r.value == sizes;
  }

  /** The header is two lines, holding the count and the sizes. */
  lemma HeaderLines(f: NumberFormat, layers: seq<Layer>)
    requires IntsRoundTrip(f) && |layers| > 0
    ensures AllOneLine(Header(f, layers))
    ensures f.parseInt(Header(f, layers)[0]) == Some(|layers|)
    ensures ParseInts(f, Split(Header(f, layers)[1], ' ')) == Ok(Sizes(layers))
  {
    var h := Header(f, layers);
    IntToken(f, |layers|);
    assert OneLine(h[0]);
    SizesLine(f, Sizes(layers));
    assert OneLine(h[1]);
  }

  /** What `Save` writes for a non-empty network: the header lines, then the
      layers' texts. */
  lemma SaveText(f: NumberFormat, nl: string, layers: seq<Layer>)
    requires |layers| > 0
    ensures Save(f, nl, Network(layers)).0 == WriteLines(Header(f, layers), nl) + LayerTexts(f, nl, layers)
  {
    var h := Header(f, layers);
    WriteTwoLines(h[0], h[1], nl);
  }

  lemma WriteTwoLines(a: string, b: string, nl: string)
    ensures WriteLines([a, b], nl) == a + nl + b + nl
  {
    assert [a, b][1..] == [b];
    assert WriteLines([b], nl) == b + nl + WriteLines([], nl);
  }

  /** The bias line and the tag line read back as two lines. */
  lemma TwoLinesThenRest(b: string, a: string, nl: string, t: string)
    requires OneLine(b) && OneLine(a) && NewLine(nl)
    ensures ReadLines(b + nl + a + nl + t) == [b, a] + ReadLines(t)
  {
    assert b + nl + a + nl + t == b + nl + (a + nl + t);
    ReadLineThenRest(b, nl, a + nl + t);
    ReadLineThenRest(a, nl, t);
  }

  /** A layer's text reads back as its lines: one per weight row, then the
      biases and the tag, whichever terminator was written. */
  lemma LayerTextLines(f: NumberFormat, nl: string, l: Layer, t: string)
    requires NewLine(nl) && Shaped(l) && l.nodesOut > 0 && OneLine(l.activation)
    requires ExactRows(f, l.weights) && AllExact(f, l.biases)
    ensures ReadLines(LayerText(f, nl, l) + t) == LayerLines(f, l) + ReadLines(t)
    ensures AllOneLine(LayerLines(f, l))
  {
    var rows := RowTexts(f, l.weights);
    var b := Vectors.Show(f, l.biases);
    forall i | 0 <= i < |rows| ensures OneLine(rows[i]) {
      ShowTokens(f, l.weights.values[i]);
    }
    ShowTokens(f, l.biases);
    var after := b + nl + l.activation + nl + t;
    assert LayerText(f, nl, l) + t == Matrices.Show(f, l.weights) + nl + after;
    ShowLines(f, l.weights, nl, after);
    TwoLinesThenRest(b, l.activation, nl, t);
    assert LayerLines(f, l) == rows + [b, l.activation];
  }

  /** Texts that read back as their lines one after the other read back as
      all the lines together. */
  lemma ReadBoth(a: string, linesA: seq<string>, b: string, linesB: seq<string>, t: string)
    requires ReadLines(a + (b + t)) == linesA + ReadLines(b + t)
    requires ReadLines(b + t) == linesB + ReadLines(t)
    ensures ReadLines((a + b) + t) == (linesA + linesB) + ReadLines(t)
  {
    assert (a + b) + t == a + (b + t);
    assert linesA + (linesB + ReadLines(t)) == (linesA + linesB) + ReadLines(t);
  }

  lemma SaveableTail(f: NumberFormat, layers: seq<Layer>)
    requires |layers| > 0 && Saveable(f, layers)
    ensures Storable(f, layers[0]) && Saveable(f, layers[1..])
  {
    assert forall k :: 0 <= k < |layers[1..]| ==> layers[1..][k] == layers[k + 1];
  }

  lemma {:induction false} LayerTextsLines(f: NumberFormat, nl: string, layers: seq<Layer>, t: string)
    requires NewLine(nl) && Saveable(f, layers)
    ensures ReadLines(LayerTexts(f, nl, layers) + t) == BodyLines(f, layers) + ReadLines(t)
    ensures AllOneLine(BodyLines(f, layers))
    decreases |layers|
  {
    if |layers| > 0 {
      var text := LayerText(f, nl, layers[0]);
      var texts := LayerTexts(f, nl, layers[1..]);
      var first := LayerLines(f, layers[0]);
      var others := BodyLines(f, layers[1..]);
      SaveableTail(f, layers);
      LayerTextLines(f, nl, layers[0], texts + t);
      LayerTextsLines(f, nl, layers[1..], t);
      ReadBoth(text, first, texts, others, t);
      AllOneLineAppend(first, others);
    } else {
      assert LayerTexts(f, nl, layers) + t == t;
    }
  }

  /** A line of numbers written with `ToString` fills a row of the same width
      completely. */
  lemma FillRowShown(f: NumberFormat, v: Vector, row: Vector)
    requires AllExact(f, v) && 0 < |v| == |row|
    ensures FillRow(f, Split(Vectors.Show(f, v), ' '), row, 0) == Ok(v)
  {
    ShowTokens(f, v);
    var r := FillRow(f, ShowReals(f, v), row, 0);
    assert r.value == v;
  }

  lemma ReadRowsShown(f: NumberFormat, m: Matrix, rows: seq<Vector>, more: seq<string>)
    requires ExactRows(f, m) && Valid(m) && m.column > 0
    requires |rows| == m.row && forall i :: 0 <= i < |rows| ==> |rows[i]| == m.column
    ensures ReadRows(f, RowTexts(f, m) + more, rows, 0) == Ok(m.values)
  {
    var lines := RowTexts(f, m) + more;
    forall i | 0 <= i < |rows|
      ensures FillRow(f, Split(lines[i], ' '), rows[i], 0) == Ok(m.values[i])
    {
      FillRowShown(f, m.values[i], rows[i]);
    }
    var r := ReadRows(f, lines, rows, 0);
    assert r.value == m.values;
  }

  lemma ReadBiasesShown(f: NumberFormat, b: Vector)
    requires AllExact(f, b) && |b| > 0
    ensures ReadBiases(f, Split(Vectors.Show(f, b), ' '), |b|, 0) == Ok(b)
  {
    ShowTokens(f, b);
    var r := ReadBiases(f, ShowReals(f, b), |b|, 0);
    assert r.value == b;
  }

  /** Loading a layer's own lines gives the layer back, with a new cache. */
  lemma LoadLayerShown(f: NumberFormat, l: Layer, more: seq<string>, rng: Rng.Stream)
    requires Storable(f, l)
    ensures var r := LoadLayer(f, LayerLines(f, l) + more, l.nodesIn, l.nodesOut, rng);
      && r.Ok? && r.value.rest == more
      && r.value.layer == l.(lastInput := r.value.layer.lastInput)
  {
    var lines := LayerLines(f, l) + more;
    var tail := [Vectors.Show(f, l.biases), l.activation] + more;
    assert lines == RowTexts(f, l.weights) + tail;
    var w := Matrices.Random(l.nodesOut, l.nodesIn, rng).value.0;
    ReadRowsShown(f, l.weights, w.values, tail);
    assert lines[l.nodesOut] == Vectors.Show(f, l.biases);
    ReadBiasesShown(f, l.biases);
    assert lines[l.nodesOut + 2..] == more;
  }

  /** `acc` put in front of what a successful load returns; a failure passes
      through unchanged, as it does through the loading loop. */
  function Prefixed(acc: seq<Layer>, r: Result<seq<Layer>>): Result<seq<Layer>>
  {
    if r.Ok? then Ok(acc + r.value) else r
  }

  /** One turn of the loading loop, once the layer has loaded. */
  lemma LoadLayersStep(f: NumberFormat, lines: seq<string>, sizes: seq<int>, i: nat, count: int,
                       nodesIn: int, nodesOut: int, rng: Rng.Stream)
    requires i < count && i + 1 < |sizes| && sizes[i] == nodesIn && sizes[i + 1] == nodesOut
    requires LoadLayer(f, lines, nodesIn, nodesOut, rng).Ok?
    ensures var first := LoadLayer(f, lines, nodesIn, nodesOut, rng).value;
      LoadLayers(f, lines, sizes, i, count, rng)
        == Prefixed([first.layer], LoadLayers(f, first.rest, sizes, i + 1, count, first.rng))
  {
  }

  lemma PrefixedNothing(r: Result<seq<Layer>>)
    ensures Prefixed([], r) == r
  {
    if r.Ok? {
      assert [] + r.value == r.value;
    }
  }

  lemma PrefixedTwice(a: seq<Layer>, b: seq<Layer>, r: Result<seq<Layer>>)
    ensures Prefixed(a, Prefixed(b, r)) == Prefixed(a + b, r)
  {
    if r.Ok? {
      assert a + (b + r.value) == (a + b) + r.value;
    }
  }

  lemma SameParametersSnoc(a: seq<Layer>, b: seq<Layer>, l: Layer, l': Layer)
    requires SameParameters(a, b) && l' == l.(lastInput := l'.lastInput)
    ensures SameParameters(a + [l], b + [l'])
  {
  }

  lemma SliceAt(layers: seq<Layer>, k: nat)
    requires k < |layers|
    ensures layers[k..] == [layers[k]] + layers[k + 1..]
    ensures layers[..k] + [layers[k]] == layers[..k + 1]
  {
  }

  /** The loading loop reads back every layer whose lines it is given. */
  lemma LoadLayersShown(f: NumberFormat, layers: seq<Layer>, sizes: seq<int>, rng: Rng.Stream)
    requires Saveable(f, layers) && Described(sizes, 0, layers)
    ensures var r := LoadLayers(f, BodyLines(f, layers), sizes, 0, |layers|, rng);
      r.Ok? && SameParameters(layers, r.value)
  {
    var lines := BodyLines(f, layers);
    var k := 0;
    var cur := lines;
    var g := rng;
    var acc: seq<Layer> := [];
    assert layers[k..] == layers;
    PrefixedNothing(LoadLayers(f, lines, sizes, 0, |layers|, rng));
    while k < |layers|
      invariant k <= |layers|
      invariant cur == BodyLines(f, layers[k..])
      invariant SameParameters(layers[..k], acc)
      invariant LoadLayers(f, lines, sizes, 0, |layers|, rng)
        == Prefixed(acc, LoadLayers(f, cur, sizes, k, |layers|, g))
      decreases |layers| - k
    {
      var l := layers[k];
      var more := BodyLines(f, layers[k + 1..]);
      SliceAt(layers, k);
      assert cur == LayerLines(f, l) + more;
      LoadLayerShown(f, l, more, g);
      var first := LoadLayer(f, cur, l.nodesIn, l.nodesOut, g).value;
      LoadLayersStep(f, cur, sizes, k, |layers|, l.nodesIn, l.nodesOut, g);
      PrefixedTwice(acc, [first.layer], LoadLayers(f, more, sizes, k + 1, |layers|, first.rng));
      SameParametersSnoc(layers[..k], acc, l, first.layer);
      acc := acc + [first.layer];
      cur := more;
      g := first.rng;
      k := k + 1;
    }
    assert layers[..k] == layers;
  }

  /** Loading what `Save` wrote gives back every layer's sizes, weights,
      biases and tag; only the caches are new. The format needs layers with
      inputs and outputs, one-line tags, integers that print and parse back,
      and weights and biases that do too; either terminator reads back. */
  lemma SaveLoad(f: NumberFormat, nl: string, n: Network, rng: Rng.Stream)
    requires IntsRoundTrip(f) && NewLine(nl)
    requires WellFormed(n) && |n.layers| > 0 && Saveable(f, n.layers)
    ensures Save(f, nl, n).1 == Done
    ensures var r := Load(f, Save(f, nl, n).0, rng);
      r.Ok? && SameParameters(n.layers, r.value.layers)
  {
    var h := Header(f, n.layers);
    var body := BodyLines(f, n.layers);
    HeaderLines(f, n.layers);
    SaveText(f, nl, n.layers);
    ReadWrittenLines(h, nl, LayerTexts(f, nl, n.layers));
    LayerTextsLines(f, nl, n.layers, "");
    assert LayerTexts(f, nl, n.layers) + "" == LayerTexts(f, nl, n.layers);
    assert ReadLines(Save(f, nl, n).0) == h + body;
    assert (h + body)[2..] == body;
    assert Described(Sizes(n.layers), 0, n.layers);
    LoadLayersShown(f, n.layers, Sizes(n.layers), rng);
  }

  /** A layer with no inputs writes each of its rows as an empty line, which
      cannot be read back: the single empty token either fails to parse or
      lands past the end of the empty row. */
  lemma SaveLoadWithoutInputs(f: NumberFormat, nl: string, l: Layer, rng: Rng.Stream)
    requires IntsRoundTrip(f) && NewLine(nl)
    requires Shaped(l) && l.nodesIn == 0 && l.nodesOut > 0 && OneLine(l.activation)
    requires AllExact(f, l.biases)
    ensures Load(f, Save(f, nl, Network([l])).0, rng).Err?
  {
    var h := Header(f, [l]);
    HeaderLines(f, [l]);
    SaveText(f, nl, [l]);
    assert LayerTexts(f, nl, [l]) == LayerText(f, nl, l) + "";
    assert ExactRows(f, l.weights) by {
      forall i | 0 <= i < |l.weights.values| ensures AllExact(f, l.weights.values[i]) {
        assert l.weights.values[i] == [];
      }
    }
    ReadWrittenLines(h, nl, LayerTexts(f, nl, [l]));
    LayerTextLines(f, nl, l, "");
    var lines := h + LayerLines(f, l);
    assert ReadLines(Save(f, nl, Network([l])).0) == lines;
    assert l.weights.values[0] == [];
    assert lines[2..][0] == "";
    var w := Matrices.Random(l.nodesOut, 0, rng).value.0;
    assert !FillRow(f, Split("", ' '), w.values[0], 0).Ok?;
  }

  /** A layer with no outputs writes two empty lines before its tag. */
  lemma OutputlessText(f: NumberFormat, nl: string, l: Layer)
    requires Shaped(l) && l.nodesOut == 0
    ensures LayerTexts(f, nl, [l]) == WriteLines(["", "", l.activation], nl)
  {
    assert Matrices.Show(f, l.weights) == "";
    assert Vectors.Show(f, l.biases) == "";
    assert ["", "", l.activation][1..] == ["", l.activation];
    WriteTwoLines("", l.activation, nl);
    assert LayerTexts(f, nl, [l]) == LayerText(f, nl, l) + "";
  }

  /** A layer with no outputs writes its empty weight matrix as one empty
      line, which the loader takes for the bias line; the bias line is then
      taken for the tag, so the tag read back is the empty biases' text. */
  lemma SaveLoadWithoutOutputs(f: NumberFormat, nl: string, l: Layer, rng: Rng.Stream)
    requires IntsRoundTrip(f) && NewLine(nl)
    requires Shaped(l) && l.nodesOut == 0 && OneLine(l.activation)
    ensures var r := Load(f, Save(f, nl, Network([l])).0, rng);
      r.Ok? && |r.value.layers| == 1 && r.value.layers[0].activation == ""
  {
    var h := Header(f, [l]);
    HeaderLines(f, [l]);
    SaveText(f, nl, [l]);
    var tail := ["", "", l.activation];
    OutputlessText(f, nl, l);
    ReadWrittenLines(h, nl, WriteLines(tail, nl));
    ReadWriteLines(tail, nl);
    assert (h + tail)[2..] == tail;
    assert Sizes([l])[1] == 0;
  }
}
