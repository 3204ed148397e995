/** The float-array `Network` of the first engine version: a chain of
    `FloatLayers.Layer`s, evaluated by folding `FeedForward`, trained by a
    finite-difference estimate of the cost's slope along every weight and
    bias. `float` arithmetic is modelled over `real`. */
module FloatNetworks {
  import opened Wrappers
  import Rng
  import opened Vectors
  import opened Matrices
  import opened Activations
  import Costs
  import FloatLayers

  type Layer = FloatLayers.Layer

  datatype Network = Network(layers: seq<Layer>)

  /** Every layer keeps its own shape. */
  predicate Shaped(n: Network)
  {
    forall i :: 0 <= i < |n.layers| ==> FloatLayers.Shaped(n.layers[i])
  }

  /** Each layer takes as many inputs as the layer before it produces. */
  predicate Chained(layers: seq<Layer>)
  {
    forall t :: 0 <= t < |layers| - 1 ==> layers[t + 1].inputSize == layers[t].outputSize
  }

  /** Every layer's tag is one the float layer recognises. */
  predicate AllRecognised(layers: seq<Layer>)
  {
    forall t :: 0 <= t < |layers| ==> FloatLayers.Recognised(layers[t].activation)
  }

  // ----- Construction -----

  /** The constructor's loop from hidden size `k` on, `prevSize` being the
      size the previous layer produced; the output layer closes the chain. */
  function ConstructFrom(prevSize: int, hiddenSizes: seq<int>, k: nat, outputSize: int, rng: Rng.Stream)
    : (r: Result<(seq<Layer>, Rng.Stream)>)
    requires k <= |hiddenSizes|
    ensures r.Ok? <==> prevSize >= 0 && outputSize >= 0 && forall t :: k <= t < |hiddenSizes| ==> hiddenSizes[t] >= 0
    ensures r.Err? ==> r.error == NegativeSize
    ensures r.Ok? ==> var layers := r.value.0;
      && |layers| == |hiddenSizes| - k + 1
      && (forall t :: 0 <= t < |layers| ==> FloatLayers.Shaped(layers[t]))
      && Chained(layers)
      && layers[0].inputSize == prevSize
      && layers[|layers| - 1].outputSize == outputSize
      && layers[|layers| - 1].activation == Sigmoid
      && (forall t :: 0 <= t < |layers| - 1 ==> layers[t].outputSize == hiddenSizes[k + t])
      && (forall t :: 0 <= t < |layers| - 1 ==> layers[t].activation == Relu)
    decreases |hiddenSizes| - k
  {
    if k == |hiddenSizes| then
      var last :- FloatLayers.Construct(prevSize, outputSize, Sigmoid, rng);
      Ok(([last.0], last.1))
    else
      var first :- FloatLayers.Construct(prevSize, hiddenSizes[k], Relu, rng);
      var more :- ConstructFrom(hiddenSizes[k], hiddenSizes, k + 1, outputSize, first.1);
      var layers := [first.0] + more.0;
      assert forall t :: 1 <= t < |layers| ==> layers[t] == more.0[t - 1];
      Ok((layers, more.1))
  }

  /** `new Network(inputSize, hiddenSizes, outputSize)`: one relu layer per
      hidden size, then a sigmoid output layer, each taking what the previous
      one produces. A negative size fails at the layer that allocates it. */
  function Construct(inputSize: int, hiddenSizes: seq<int>, outputSize: int, rng: Rng.Stream)
    : (r: Result<(Network, Rng.Stream)>)
    ensures r.Ok? <==> inputSize >= 0 && outputSize >= 0 && forall t :: 0 <= t < |hiddenSizes| ==> hiddenSizes[t] >= 0
    ensures r.Err? ==> r.error == NegativeSize
    ensures r.Ok? ==> var n := r.value.0;
      && Shaped(n) && Chained(n.layers) && AllRecognised(n.layers)
      && |n.layers| == |hiddenSizes| + 1
      && n.layers[0].inputSize == inputSize
      && n.layers[|hiddenSizes|].outputSize == outputSize
      && (forall t :: 0 <= t < |hiddenSizes| ==> n.layers[t].outputSize == hiddenSizes[t])
      && (forall t :: 0 <= t < |hiddenSizes| ==> n.layers[t].activation == Relu)
      && n.layers[|hiddenSizes|].activation == Sigmoid
  {
    var built :- ConstructFrom(inputSize, hiddenSizes, 0, outputSize, rng);
    Ok((Network(built.0), built.1))
  }

  // ----- Evaluation -----

  /** `FeedForward(input)` over a run of layers: each layer's output is the
      next layer's input. */
  function FeedForwardAll(m: Maths, layers: seq<Layer>, input: Vector): (r: Result<Vector>)
    requires Sound(m) && forall t :: 0 <= t < |layers| ==> FloatLayers.Shaped(layers[t])
    ensures |layers| == 0 ==> r == Ok(input)
    ensures Chained(layers) && AllRecognised(layers) && |layers| > 0 ==>
      (r.Ok? <==> layers[0].outputSize == 0 || layers[0].inputSize <= |input|)
    ensures Chained(layers) && |layers| > 0 && r.Ok? ==> |r.value| == layers[|layers| - 1].outputSize
    decreases |layers|
  {
    if |layers| == 0 then Ok(input)
    else
      var out :- FloatLayers.FeedForward(m, layers[0], input);
      assert Chained(layers) ==> Chained(layers[1..]) by {
        if Chained(layers) {
          forall t | 0 <= t < |layers[1..]| - 1
            ensures layers[1..][t + 1].inputSize == layers[1..][t].outputSize
          {
            assert layers[t + 2].inputSize == layers[t + 1].outputSize;
          }
        }
      }
      FeedForwardAll(m, layers[1..], out)
  }

  /** The network's `FeedForward(input)`. */
  function FeedForward(m: Maths, n: Network, input: Vector): (r: Result<Vector>)
    requires Sound(m) && Shaped(n)
  {
    FeedForwardAll(m, n.layers, input)
  }

  /** Evaluating two runs of layers one after the other is evaluating their
      concatenation. */
  lemma {:induction false} FeedForwardSplits(m: Maths, a: seq<Layer>, b: seq<Layer>, input: Vector)
    requires Sound(m)
    requires forall t :: 0 <= t < |a| ==> FloatLayers.Shaped(a[t])
    requires forall t :: 0 <= t < |b| ==> FloatLayers.Shaped(b[t])
    ensures forall t :: 0 <= t < |a + b| ==> FloatLayers.Shaped((a + b)[t])
    ensures FeedForwardAll(m, a + b, input) ==
      match FeedForwardAll(m, a, input)
        case Ok(mid) => FeedForwardAll(m, b, mid)
        case Err(e) => Err(e)
    decreases |a|
  {
    if |a| == 0 {
      assert a + b == b;
    } else {
      assert (a + b)[1..] == a[1..] + b;
      var out := FloatLayers.FeedForward(m, a[0], input);
      if out.Ok? {
        FeedForwardSplits(m, a[1..], b, out.value);
      }
    }
  }

  // ----- Cost -----

  /** `(o[0] - t[0])^2 + ... + (o[n-1] - t[n-1])^2`, accumulated from the left. */
  function SumSquares(output: Vector, target: Vector, n: nat): (r: real)
    requires n <= |output| && n <= |target|
    ensures r >= 0.0
  {
    if n == 0 then 0.0
    else
      var e := output[n - 1] - target[n - 1];
      SumSquares(output, target, n - 1) + e * e
  }

  lemma {:induction false} SumSquaresZero(output: Vector, target: Vector, n: nat)
    requires n <= |output| && n <= |target|
    ensures SumSquares(output, target, n) == 0.0 <==> forall i :: 0 <= i < n ==> output[i] == target[i]
  {
    if n > 0 {
      SumSquaresZero(output, target, n - 1);
      var e := output[n - 1] - target[n - 1];
      var before := SumSquares(output, target, n - 1);
      var sq := e * e;
      assert SumSquares(output, target, n) == before + sq;
      Costs.HalfSquareSign(e);
      assert sq == 2.0 * Costs.HalfSquare(e);
    }
  }

  /** `CalculateCost(output, target)`: the sum of squared errors over the
      output, with no halving. `target[i]` is read for every output index, so
      a shorter target throws. */
  function CalculateCost(output: Vector, target: Vector): (r: Result<real>)
    ensures r.Ok? <==> |output| <= |target|
    ensures r.Err? ==> r.error == IndexOutOfRange
    ensures r.Ok? ==> r.value >= 0.0
    ensures r.Ok? ==> (r.value == 0.0 <==> output == target[..|output|])
  {
    if |target| < |output| then Err(IndexOutOfRange)
    else
      SumSquaresZero(output, target, |output|);
      assert (forall i :: 0 <= i < |output| ==> output[i] == target[i]) <==> output == target[..|output|];
      Ok(SumSquares(output, target, |output|))
  }

  lemma {:induction false} SumSquaresIsTwiceCost(output: Vector, target: Vector, n: nat)
    requires |output| == |target| && n <= |output|
    ensures SumSquares(output, target, n) == 2.0 * Costs.Cost(Vectors.Sub(target, output).value[..n])
  {
    var e := Vectors.Sub(target, output).value;
    if n > 0 {
      SumSquaresIsTwiceCost(output, target, n - 1);
      assert e[..n][..n - 1] == e[..n - 1];
      var d := output[n - 1] - target[n - 1];
      assert e[n - 1] == -d;
      assert (-d) * (-d) * 0.5 * 2.0 == d * d;
    }
  }

  /** Without the halving, this cost is twice the cost helpers' pair cost. */
  lemma CalculateCostIsTwicePairCost(output: Vector, target: Vector)
    requires |output| == |target|
    ensures CalculateCost(output, target).value == 2.0 * Costs.PairCost(target, output).value
  {
    SumSquaresIsTwiceCost(output, target, |output|);
    var e := Vectors.Sub(target, output).value;
    assert e[..|output|] == e;
  }

  /** The cost of the network's answer to one example. */
  function Loss(m: Maths, n: Network, input: Vector, target: Vector): (r: Result<real>)
    requires Sound(m) && Shaped(n)
    ensures r.Ok? ==> r.value >= 0.0
  {
    var output :- FeedForward(m, n, input);
    CalculateCost(output, target)
  }

  // ----- Learning -----

  /** Two layers with the same sizes and tag, whatever their parameters. */
  predicate SameFrame(a: Layer, b: Layer)
  {
    a.inputSize == b.inputSize && a.outputSize == b.outputSize && a.activation == b.activation
  }

  /** Two networks that differ at most in their parameters. */
  predicate SameFrames(a: Network, b: Network)
  {
    |a.layers| == |b.layers| && forall t :: 0 <= t < |a.layers| ==> SameFrame(a.layers[t], b.layers[t])
  }

  /** Whether evaluation succeeds, and how long its answer is, depends on the
      sizes and tags only, never on the parameters. */
  lemma {:induction false} FeedForwardShapeOnly(m: Maths, a: seq<Layer>, b: seq<Layer>, x: Vector, y: Vector)
    requires Sound(m)
    requires forall t :: 0 <= t < |a| ==> FloatLayers.Shaped(a[t])
    requires forall t :: 0 <= t < |b| ==> FloatLayers.Shaped(b[t])
    requires |a| == |b| && forall t :: 0 <= t < |a| ==> SameFrame(a[t], b[t])
    requires |x| == |y|
    ensures FeedForwardAll(m, a, x).Ok? <==> FeedForwardAll(m, b, y).Ok?
    ensures FeedForwardAll(m, a, x).Ok? ==> |FeedForwardAll(m, a, x).value| == |FeedForwardAll(m, b, y).value|
    decreases |a|
  {
    if |a| > 0 {
      var oa := FloatLayers.FeedForward(m, a[0], x);
      var ob := FloatLayers.FeedForward(m, b[0], y);
      if oa.Ok? {
        FeedForwardShapeOnly(m, a[1..], b[1..], oa.value, ob.value);
      }
    }
  }

  lemma LossShapeOnly(m: Maths, n: Network, n': Network, input: Vector, target: Vector)
    requires Sound(m) && Shaped(n) && Shaped(n') && SameFrames(n, n')
    ensures Loss(m, n, input, target).Ok? <==> Loss(m, n', input, target).Ok?
  {
    FeedForwardShapeOnly(m, n.layers, n'.layers, input, input);
  }

  /** The network with weight `(j, k)` of layer `i` moved by `delta`. */
  function WithWeight(n: Network, i: nat, j: nat, k: nat, delta: real): (r: Network)
    requires Shaped(n) && i < |n.layers| && j < n.layers[i].outputSize && k < n.layers[i].inputSize
    ensures Shaped(r) && SameFrames(n, r)
  {
    Network(n.layers[i := FloatLayers.AdjustWeight(n.layers[i], j, k, delta).value.0])
  }

  /** The network with bias `j` of layer `i` moved by `delta`. */
  function WithBias(n: Network, i: nat, j: nat, delta: real): (r: Network)
    requires Shaped(n) && i < |n.layers| && j < n.layers[i].outputSize
    ensures Shaped(r) && SameFrames(n, r)
  {
    Network(n.layers[i := FloatLayers.AdjustBias(n.layers[i], j, delta).value.0])
  }

  /** `0.0001f`, the step of the difference quotient, as the float it is. */
  const Step: real := 13743895.0 / 137438953472.0

  /** Where the example's cost can be measured, and every parameter index
      `(i, j, k)` of the network. */
  ghost predicate Measurable(m: Maths, n: Network, input: Vector, target: Vector)
  {
    Sound(m) && Shaped(n) && Loss(m, n, input, target).Ok?
  }

  /** The difference quotient of the cost along weight `(j, k)` of layer `i`. */
  function WeightSlope(m: Maths, n: Network, input: Vector, target: Vector, i: nat, j: nat, k: nat): real
    requires Measurable(m, n, input, target)
    requires i < |n.layers| && j < n.layers[i].outputSize && k < n.layers[i].inputSize
  {
    var moved := WithWeight(n, i, j, k, Step);
    LossShapeOnly(m, n, moved, input, target);
    (Loss(m, moved, input, target).value - Loss(m, n, input, target).value) / Step
  }

  /** The difference quotient of the cost along bias `j` of layer `i`. */
  function BiasSlope(m: Maths, n: Network, input: Vector, target: Vector, i: nat, j: nat): real
    requires Measurable(m, n, input, target)
    requires i < |n.layers| && j < n.layers[i].outputSize
  {
    var moved := WithBias(n, i, j, Step);
    LossShapeOnly(m, n, moved, input, target);
    (Loss(m, moved, input, target).value - Loss(m, n, input, target).value) / Step
  }

  /** The bias gradient the loops leave behind: the bias is measured inside the
      loop over the layer's inputs, so a layer without inputs keeps the zero
      the gradient array starts with. */
  function BiasGradient(m: Maths, n: Network, input: Vector, target: Vector, i: nat, j: nat): real
    requires Measurable(m, n, input, target)
    requires i < |n.layers| && j < n.layers[i].outputSize
  {
    if n.layers[i].inputSize == 0 then 0.0 else BiasSlope(m, n, input, target, i, j)
  }

  /** The weight gradients of layer `i`, one row per output. */
  function WeightGradients(m: Maths, n: Network, input: Vector, target: Vector, i: nat): (g: seq<Vector>)
    requires Measurable(m, n, input, target) && i < |n.layers|
    ensures |g| == n.layers[i].outputSize
    ensures forall j :: 0 <= j < |g| ==> |g[j]| == n.layers[i].inputSize
  {
    var l := n.layers[i];
    seq(l.outputSize, j requires 0 <= j < l.outputSize =>
      seq(l.inputSize, k requires 0 <= k < l.inputSize => WeightSlope(m, n, input, target, i, j, k)))
  }

  /** The bias gradients of layer `i`. */
  function BiasGradients(m: Maths, n: Network, input: Vector, target: Vector, i: nat): (g: Vector)
    requires Measurable(m, n, input, target) && i < |n.layers|
    ensures |g| == n.layers[i].outputSize
  {
    var l := n.layers[i];
    seq(l.outputSize, j requires 0 <= j < l.outputSize => BiasGradient(m, n, input, target, i, j))
  }

  /** A gradient step on a weight matrix: every weight moved by `-rate` times
      its own gradient. */
  function DescendWeights(w: Matrix, g: seq<Vector>, rate: real): (r: Matrix)
    requires Valid(w) && |g| == w.row && forall j :: 0 <= j < |g| ==> |g[j]| == w.column
    ensures Valid(r) && r.row == w.row && r.column == w.column
  {
    w.(values := seq(w.row, j requires 0 <= j < w.row =>
      seq(w.column, k requires 0 <= k < w.column => w.values[j][k] + -rate * g[j][k])))
  }

  /** A gradient step on a bias vector. */
  function DescendBiases(b: Vector, g: Vector, rate: real): (r: Vector)
    requires |g| == |b|
    ensures |r| == |b|
  {
    seq(|b|, j requires 0 <= j < |b| => b[j] + -rate * g[j])
  }

  /** Layer `i` after the update: each weight and bias moved by `-rate` times
      its own gradient, every gradient measured on the network as it was
      before the update. */
  function Updated(m: Maths, n: Network, input: Vector, target: Vector, rate: real, i: nat): (r: Layer)
    requires Measurable(m, n, input, target) && i < |n.layers|
    ensures FloatLayers.Shaped(r) && SameFrame(r, n.layers[i])
  {
    var l := n.layers[i];
    l.(weights := DescendWeights(l.weights, WeightGradients(m, n, input, target, i), rate),
       biases := DescendBiases(l.biases, BiasGradients(m, n, input, target, i), rate))
  }

  /** What `Learn(input, target, rate)` does to the network: when the cost of
      the example can be computed, every layer is updated; otherwise the
      exception from evaluating or costing the example escapes. */
  function Learned(m: Maths, n: Network, input: Vector, target: Vector, rate: real): (r: Result<Network>)
    requires Sound(m) && Shaped(n)
    ensures r.Ok? <==> Loss(m, n, input, target).Ok?
    ensures r.Err? ==> r.error == Loss(m, n, input, target).error
    ensures r.Ok? ==> Shaped(r.value) && SameFrames(n, r.value)
  {
    if Loss(m, n, input, target).Err? then Err(Loss(m, n, input, target).error)
    else Ok(Network(seq(|n.layers|, i requires 0 <= i < |n.layers| => Updated(m, n, input, target, rate, i))))
  }

  /** Two matrices of one shape with the same entries are the same matrix. */
  lemma MatrixExtensional(a: Matrix, b: Matrix)
    requires Valid(a) && Valid(b) && a.row == b.row && a.column == b.column
    requires forall j, k :: 0 <= j < a.row && 0 <= k < a.column ==> a.values[j][k] == b.values[j][k]
    ensures a == b
  {
    forall j | 0 <= j < a.row ensures a.values[j] == b.values[j] {
      assert forall k :: 0 <= k < a.column ==> a.values[j][k] == b.values[j][k];
    }
    assert a.values == b.values;
  }

  /** With a zero rate, learning leaves every parameter where it was. */
  lemma LearnedAtZeroRate(m: Maths, n: Network, input: Vector, target: Vector)
    requires Measurable(m, n, input, target)
    ensures Learned(m, n, input, target, 0.0) == Ok(n)
  {
    var r := Learned(m, n, input, target, 0.0).value;
    forall i | 0 <= i < |n.layers| ensures r.layers[i] == n.layers[i] {
      var u := Updated(m, n, input, target, 0.0, i);
      MatrixExtensional(u.weights, n.layers[i].weights);
      assert u.biases == n.layers[i].biases;
    }
    assert r.layers == n.layers;
  }

  /** The gradients measured for layer `i`. */
  predicate Measures(m: Maths, n: Network, input: Vector, target: Vector, i: nat, gW: seq<Vector>, gB: Vector)
    requires Measurable(m, n, input, target) && i < |n.layers|
  {
    var l := n.layers[i];
    && |gW| == l.outputSize && |gB| == l.outputSize
    && (forall j :: 0 <= j < l.outputSize ==> |gW[j]| == l.inputSize)
    && (forall j, k :: 0 <= j < l.outputSize && 0 <= k < l.inputSize ==>
          gW[j][k] == WeightSlope(m, n, input, target, i, j, k))
    && (forall j :: 0 <= j < l.outputSize ==> gB[j] == BiasGradient(m, n, input, target, i, j))
  }

  /** Gradients that pass `Measures` are the gradient tables of the layer. */
  lemma MeasuresGradients(m: Maths, n: Network, input: Vector, target: Vector, i: nat, gW: seq<Vector>, gB: Vector)
    requires Measurable(m, n, input, target) && i < |n.layers|
    requires Measures(m, n, input, target, i, gW, gB)
    ensures gW == WeightGradients(m, n, input, target, i)
    ensures gB == BiasGradients(m, n, input, target, i)
  {
    var w := WeightGradients(m, n, input, target, i);
    forall j | 0 <= j < |w| ensures gW[j] == w[j] {
      assert forall k :: 0 <= k < |w[j]| ==> gW[j][k] == w[j][k];
    }
  }

  /** One step of the gradient loops: weight `(j, k)` of layer `i` is moved up
      by the step, the cost measured, and the weight moved back, which gives
      back the network it started from. */
  method MeasureWeight(m: Maths, n: Network, input: Vector, target: Vector, cost: real, i: nat, j: nat, k: nat)
    returns (slope: real, net: Network)
    requires Measurable(m, n, input, target) && Loss(m, n, input, target) == Ok(cost)
    requires i < |n.layers| && j < n.layers[i].outputSize && k < n.layers[i].inputSize
    ensures net == n
    ensures slope == WeightSlope(m, n, input, target, i, j, k)
  {
    var up := FloatLayers.AdjustWeight(n.layers[i], j, k, Step).value.0;
    net := Network(n.layers[i := up]);
    assert net == WithWeight(n, i, j, k, Step);
    LossShapeOnly(m, n, net, input, target);
    var newCost := Loss(m, net, input, target).value;
    slope := (newCost - cost) / Step;
    FloatLayers.AdjustWeightUndone(n.layers[i], j, k, Step);
    var down := FloatLayers.AdjustWeight(net.layers[i], j, k, -Step).value.0;
    net := Network(net.layers[i := down]);
    assert net.layers == n.layers;
  }

  /** The same for bias `j` of layer `i`. */
  method MeasureBias(m: Maths, n: Network, input: Vector, target: Vector, cost: real, i: nat, j: nat)
    returns (slope: real, net: Network)
    requires Measurable(m, n, input, target) && Loss(m, n, input, target) == Ok(cost)
    requires i < |n.layers| && j < n.layers[i].outputSize
    ensures net == n
    ensures slope == BiasSlope(m, n, input, target, i, j)
  {
    var up := FloatLayers.AdjustBias(n.layers[i], j, Step).value.0;
    net := Network(n.layers[i := up]);
    assert net == WithBias(n, i, j, Step);
    LossShapeOnly(m, n, net, input, target);
    var newCost := Loss(m, net, input, target).value;
    slope := (newCost - cost) / Step;
    FloatLayers.AdjustBiasUndone(n.layers[i], j, Step);
    var down := FloatLayers.AdjustBias(net.layers[i], j, -Step).value.0;
    net := Network(net.layers[i := down]);
    assert net.layers == n.layers;
  }

  /** One row of the gradient loops, for output `j` of layer `i`: for every
      input `k`, weight `(j, k)` and then bias `j` are measured. Since every
      move is undone before the next measurement, the network handed back is
      the one handed in. */
  method MeasureRow(m: Maths, n: Network, input: Vector, target: Vector, cost: real, i: nat, j: nat)
    returns (row: Vector, bias: real, net: Network)
    requires Measurable(m, n, input, target) && Loss(m, n, input, target) == Ok(cost)
    requires i < |n.layers| && j < n.layers[i].outputSize
    ensures net == n
    ensures |row| == n.layers[i].inputSize
    ensures forall k :: 0 <= k < |row| ==> row[k] == WeightSlope(m, n, input, target, i, j, k)
    ensures bias == BiasGradient(m, n, input, target, i, j)
  {
    var size := n.layers[i].inputSize;
    row := seq(size, _ => 0.0);
    bias := 0.0;
    net := n;
    var k := 0;
    while k < size
      invariant 0 <= k <= size
      invariant net == n
      invariant |row| == size
      invariant forall b :: 0 <= b < k ==> row[b] == WeightSlope(m, n, input, target, i, j, b)
      invariant bias == if k == 0 then 0.0 else BiasSlope(m, n, input, target, i, j)
    {
      var slope;
      slope, net := MeasureWeight(m, net, input, target, cost, i, j, k);
      row := row[k := slope];
      bias, net := MeasureBias(m, net, input, target, cost, i, j);
      k := k + 1;
    }
  }

  /** The gradient loops for layer `i`: one row per output. */
  method MeasureLayer(m: Maths, n: Network, input: Vector, target: Vector, cost: real, i: nat)
    returns (gW: seq<Vector>, gB: Vector, net: Network)
    requires Measurable(m, n, input, target) && Loss(m, n, input, target) == Ok(cost)
    requires i < |n.layers|
    ensures net == n
    ensures Measures(m, n, input, target, i, gW, gB)
  {
    var l := n.layers[i];
    gW := seq(l.outputSize, _ => seq(l.inputSize, _ => 0.0));
    gB := seq(l.outputSize, _ => 0.0);
    net := n;
    var j := 0;
    while j < l.outputSize
      invariant 0 <= j <= l.outputSize
      invariant net == n
      invariant |gW| == l.outputSize && |gB| == l.outputSize
      invariant forall a :: 0 <= a < l.outputSize ==> |gW[a]| == l.inputSize
      invariant forall a, b :: 0 <= a < j && 0 <= b < l.inputSize ==>
        gW[a][b] == WeightSlope(m, n, input, target, i, a, b)
      invariant forall a :: 0 <= a < j ==> gB[a] == BiasGradient(m, n, input, target, i, a)
    {
      var row, bias;
      row, bias, net := MeasureRow(m, net, input, target, cost, i, j);
      gW := gW[j := row];
      gB := gB[j := bias];
      j := j + 1;
    }
  }

  /** The weight-update loops for one layer: `AdjustWeight(j, k, -rate * g[j, k])`
      for every weight. */
  method ApplyWeights(l: Layer, g: seq<Vector>, rate: real) returns (r: Layer)
    requires FloatLayers.Shaped(l)
    requires |g| == l.outputSize && forall j :: 0 <= j < |g| ==> |g[j]| == l.inputSize
    ensures r == l.(weights := DescendWeights(l.weights, g, rate))
  {
    r := l;
    var j := 0;
    while j < l.outputSize
      invariant 0 <= j <= l.outputSize
      invariant FloatLayers.Shaped(r) && r == l.(weights := r.weights)
      invariant r.weights.row == l.weights.row && r.weights.column == l.weights.column
      invariant forall a, b :: 0 <= a < l.outputSize && 0 <= b < l.inputSize ==>
        r.weights.values[a][b] == l.weights.values[a][b] + (if a < j then -rate * g[a][b] else 0.0)
    {
      var k := 0;
      while k < l.inputSize
        invariant 0 <= k <= l.inputSize
        invariant FloatLayers.Shaped(r) && r == l.(weights := r.weights)
        invariant r.weights.row == l.weights.row && r.weights.column == l.weights.column
        invariant forall a, b :: 0 <= a < l.outputSize && 0 <= b < l.inputSize ==>
          r.weights.values[a][b] == l.weights.values[a][b] + (if a < j || (a == j && b < k) then -rate * g[a][b] else 0.0)
      {
        r := FloatLayers.AdjustWeight(r, j, k, -rate * g[j][k]).value.0;
        k := k + 1;
      }
      j := j + 1;
    }
    MatrixExtensional(r.weights, DescendWeights(l.weights, g, rate));
  }

  /** The bias-update loop for one layer: `AdjustBias(j, -rate * g[j])` for
      every bias. */
  method ApplyBiases(l: Layer, g: Vector, rate: real) returns (r: Layer)
    requires FloatLayers.Shaped(l) && |g| == l.outputSize
    ensures r == l.(biases := DescendBiases(l.biases, g, rate))
  {
    r := l;
    var j := 0;
    while j < l.outputSize
      invariant 0 <= j <= l.outputSize
      invariant FloatLayers.Shaped(r) && r == l.(biases := r.biases)
      invariant forall a :: 0 <= a < l.outputSize ==> r.biases[a] == l.biases[a] + (if a < j then -rate * g[a] else 0.0)
    {
      r := FloatLayers.AdjustBias(r, j, -rate * g[j]).value.0;
      j := j + 1;
    }
    var d := DescendBiases(l.biases, g, rate);
    assert forall a :: 0 <= a < |d| ==> r.biases[a] == d[a];
    assert r.biases == d;
  }

  /** The weight-update loops for layer `i`, given the gradients measured for
      it, move its weights to the ones of the updated layer. */
  method UpdateLayerWeights(m: Maths, n: Network, input: Vector, target: Vector, rate: real,
                            i: nat, gW: seq<Vector>, gB: Vector)
    returns (l: Layer)
    requires Measurable(m, n, input, target) && i < |n.layers|
    requires Measures(m, n, input, target, i, gW, gB)
    ensures FloatLayers.Shaped(l)
    ensures l == n.layers[i].(weights := Updated(m, n, input, target, rate, i).weights)
  {
    MeasuresGradients(m, n, input, target, i, gW, gB);
    l := ApplyWeights(n.layers[i], gW, rate);
  }

  /** The bias-update loop for layer `i`, run on the layer whose weights are
      already updated, completes the updated layer. */
  method UpdateLayerBiases(m: Maths, n: Network, input: Vector, target: Vector, rate: real,
                           i: nat, gW: seq<Vector>, gB: Vector, start: Layer)
    returns (l: Layer)
    requires Measurable(m, n, input, target) && i < |n.layers|
    requires Measures(m, n, input, target, i, gW, gB)
    requires start == n.layers[i].(weights := Updated(m, n, input, target, rate, i).weights)
    ensures FloatLayers.Shaped(l)
    ensures l == Updated(m, n, input, target, rate, i)
  {
    MeasuresGradients(m, n, input, target, i, gW, gB);
    l := ApplyBiases(start, gB, rate);
  }

  /** The gradient loops over all layers, from the last to the first; the
      gradients of layer `count - 1 - t` are stored at position `t`. */
  method MeasureAll(m: Maths, n: Network, input: Vector, target: Vector, cost: real)
    returns (gradientsW: seq<seq<Vector>>, gradientsB: seq<Vector>, net: Network)
    requires Measurable(m, n, input, target) && Loss(m, n, input, target) == Ok(cost)
    ensures net == n
    ensures |gradientsW| == |gradientsB| == |n.layers|
    ensures forall t :: 0 <= t < |n.layers| ==>
      Measures(m, n, input, target, |n.layers| - 1 - t, gradientsW[t], gradientsB[t])
  {
    var count := |n.layers|;
    net := n;
    gradientsW := [];
    gradientsB := [];
    var i := count - 1;
    while i >= 0
      invariant -1 <= i < count
      invariant net == n
      invariant |gradientsW| == |gradientsB| == count - 1 - i
      invariant forall t :: 0 <= t < count - 1 - i ==>
        Measures(m, n, input, target, count - 1 - t, gradientsW[t], gradientsB[t])
    {
      var gW, gB;
      gW, gB, net := MeasureLayer(m, net, input, target, cost, i);
      gradientsW := gradientsW + [gW];
      gradientsB := gradientsB + [gB];
      i := i - 1;
    }
  }

  /** The weight-update loops over all layers, from the last to the first. */
  method UpdateAllWeights(m: Maths, n: Network, input: Vector, target: Vector, rate: real,
                          gradientsW: seq<seq<Vector>>, gradientsB: seq<Vector>)
    returns (net: Network)
    requires Measurable(m, n, input, target)
    requires |gradientsW| == |gradientsB| == |n.layers|
    requires forall t :: 0 <= t < |n.layers| ==>
      Measures(m, n, input, target, |n.layers| - 1 - t, gradientsW[t], gradientsB[t])
    ensures Shaped(net) && |net.layers| == |n.layers|
    ensures forall t :: 0 <= t < |n.layers| ==>
      net.layers[t] == n.layers[t].(weights := Updated(m, n, input, target, rate, t).weights)
  {
    var count := |n.layers|;
    net := n;
    var i := count - 1;
    while i >= 0
      invariant -1 <= i < count
      invariant Shaped(net) && |net.layers| == count
      invariant forall t :: 0 <= t <= i ==> net.layers[t] == n.layers[t]
      invariant forall t :: i < t < count ==>
        net.layers[t] == n.layers[t].(weights := Updated(m, n, input, target, rate, t).weights)
    {
      var l := UpdateLayerWeights(m, n, input, target, rate, i, gradientsW[count - 1 - i], gradientsB[count - 1 - i]);
      net := Network(net.layers[i := l]);
      i := i - 1;
    }
  }

  /** The bias-update loops over all layers, from the last to the first, run
      on the network whose weights are already updated. */
  method UpdateAllBiases(m: Maths, n: Network, input: Vector, target: Vector, rate: real,
                         gradientsW: seq<seq<Vector>>, gradientsB: seq<Vector>, start: Network)
    returns (net: Network)
    requires Measurable(m, n, input, target)
    requires |gradientsW| == |gradientsB| == |n.layers|
    requires forall t :: 0 <= t < |n.layers| ==>
      Measures(m, n, input, target, |n.layers| - 1 - t, gradientsW[t], gradientsB[t])
    requires Shaped(start) && |start.layers| == |n.layers|
    requires forall t :: 0 <= t < |n.layers| ==>
      start.layers[t] == n.layers[t].(weights := Updated(m, n, input, target, rate, t).weights)
    ensures |net.layers| == |n.layers|
    ensures forall t :: 0 <= t < |n.layers| ==> net.layers[t] == Updated(m, n, input, target, rate, t)
  {
    var count := |n.layers|;
    net := start;
    var i := count - 1;
    while i >= 0
      invariant -1 <= i < count
      invariant Shaped(net) && |net.layers| == count
      invariant forall t :: 0 <= t <= i ==> net.layers[t] == start.layers[t]
      invariant forall t :: i < t < count ==> net.layers[t] == Updated(m, n, input, target, rate, t)
    {
      var l := UpdateLayerBiases(m, n, input, target, rate, i, gradientsW[count - 1 - i], gradientsB[count - 1 - i], net.layers[i]);
      net := Network(net.layers[i := l]);
      i := i - 1;
    }
  }

  /** `Learn(input, target, rate)`. The cost of the example is computed first.
      The gradient loops then run from the last layer to the first, each
      leaving the network as it found it. Only then are all the weights
      updated, and after them all the biases, so every gradient is measured on
      the network before the update. */
  method Learn(m: Maths, n: Network, input: Vector, target: Vector, rate: real) returns (r: Result<Network>)
    requires Sound(m) && Shaped(n)
    ensures r == Learned(m, n, input, target, rate)
  {
    var output := FeedForward(m, n, input);
    if output.Err? {
      return Err(output.error);
    }
    var c := CalculateCost(output.value, target);
    if c.Err? {
      return Err(c.error);
    }
    var gradientsW, gradientsB, net := MeasureAll(m, n, input, target, c.value);
    net := UpdateAllWeights(m, n, input, target, rate, gradientsW, gradientsB);
    net := UpdateAllBiases(m, n, input, target, rate, gradientsW, gradientsB, net);
    assert net.layers == Learned(m, n, input, target, rate).value.layers;
    return Ok(net);
  }
}
