/** The float-array `Layer` of the first engine version: a rectangular weight
    array of `outputSize` rows and `inputSize` columns, one bias per output,
    an activation tag, and in-place adjustment of single parameters. `float`
    arithmetic is modelled over `real`; a mutating method returns the new
    layer. */
module FloatLayers {
  import opened Wrappers
  import Rng
  import opened Vectors
  import opened Matrices
  import opened Activations
  import Layers

  datatype Layer = Layer(inputSize: nat, outputSize: nat, weights: Matrix, biases: Vector, activation: string)

  /** What the constructor establishes and every method keeps. */
  predicate Shaped(l: Layer)
  {
    && Valid(l.weights)
    && l.weights.row == l.outputSize
    && l.weights.column == l.inputSize
    && |l.biases| == l.outputSize
  }

  /** Every weight and bias lies in [-1, 1). */
  predicate InUnitRange(l: Layer)
    requires Shaped(l)
  {
    && (forall i, j :: 0 <= i < l.outputSize && 0 <= j < l.inputSize ==> -1.0 <= l.weights.values[i][j] < 1.0)
    && (forall i :: 0 <= i < l.outputSize ==> -1.0 <= l.biases[i] < 1.0)
  }

  /** The first `count` rows of the constructor's loop: each row draws its
      `inputSize` weights and then its bias, so row `i` starts at draw
      `i * (inputSize + 1)`. */
  function DrawRows(inputSize: nat, count: nat, rng: Rng.Stream): (r: (seq<Vector>, Vector))
    ensures |r.0| == count && |r.1| == count
    ensures forall i :: 0 <= i < count ==> |r.0[i]| == inputSize
    ensures forall i, j :: 0 <= i < count && 0 <= j < inputSize ==>
      r.0[i][j] == rng(i * (inputSize + 1) + j) * 2.0 - 1.0
    ensures forall i :: 0 <= i < count ==> r.1[i] == rng(i * (inputSize + 1) + inputSize) * 2.0 - 1.0
  {
    if count == 0 then ([], [])
    else
      var (rows, biases) := DrawRows(inputSize, count - 1, rng);
      var start := (count - 1) * (inputSize + 1);
      (rows + [Rng.Draws(Rng.Skip(rng, start), inputSize)], biases + [rng(start + inputSize) * 2.0 - 1.0])
  }

  /** `new Layer(inputSize, outputSize, activation)`: a negative size fails the
      array allocation; otherwise every parameter is drawn, row by row, and the
      tag is stored without being checked. */
  function Construct(inputSize: int, outputSize: int, activation: string, rng: Rng.Stream)
    : (r: Result<(Layer, Rng.Stream)>)
    ensures r.Ok? <==> inputSize >= 0 && outputSize >= 0
    ensures r.Err? ==> r.error == NegativeSize
    ensures r.Ok? ==> var l := r.value.0;
      && Shaped(l)
      && l.inputSize == inputSize && l.outputSize == outputSize && l.activation == activation
    ensures r.Ok? ==> var l := r.value.0;
      forall i, j :: 0 <= i < outputSize && 0 <= j < inputSize ==>
        l.weights.values[i][j] == rng(i * (inputSize + 1) + j) * 2.0 - 1.0
    ensures r.Ok? ==> var l := r.value.0;
      forall i :: 0 <= i < outputSize ==> l.biases[i] == rng(i * (inputSize + 1) + inputSize) * 2.0 - 1.0
    ensures r.Ok? ==> forall k: nat :: r.value.1(k) == rng(k + outputSize * (inputSize + 1))
  {
    if inputSize < 0 || outputSize < 0 then Err(NegativeSize)
    else
      var (rows, biases) := DrawRows(inputSize, outputSize, rng);
      Ok((Layer(inputSize, outputSize, Matrix(outputSize, inputSize, rows), biases, activation),
          Rng.Skip(rng, outputSize * (inputSize + 1))))
  }

  /** With draws from `NextDouble()`, every parameter starts in [-1, 1). */
  lemma ConstructInUnitRange(inputSize: nat, outputSize: nat, activation: string, rng: Rng.Stream)
    requires Rng.Unit(rng)
    ensures var l := Construct(inputSize, outputSize, activation, rng).value.0;
      Shaped(l) && InUnitRange(l)
  {
    var l := Construct(inputSize, outputSize, activation, rng).value.0;
    forall i, j | 0 <= i < outputSize && 0 <= j < inputSize
      ensures -1.0 <= l.weights.values[i][j] < 1.0
    {
      var d := rng(i * (inputSize + 1) + j);
      assert 0.0 <= d < 1.0;
    }
    forall i | 0 <= i < outputSize
      ensures -1.0 <= l.biases[i] < 1.0
    {
      var d := rng(i * (inputSize + 1) + inputSize);
      assert 0.0 <= d < 1.0;
    }
  }

  /** `AdjustWeight(i, j, delta)`: adds `delta` to one weight and returns the
      value it held before; an index outside the array throws. */
  function AdjustWeight(l: Layer, i: int, j: int, delta: real): (r: Result<(Layer, real)>)
    requires Shaped(l)
    ensures r.Ok? <==> 0 <= i < l.outputSize && 0 <= j < l.inputSize
    ensures r.Err? ==> r.error == IndexOutOfRange
    ensures r.Ok? ==> r.value.1 == l.weights.values[i][j]
    ensures r.Ok? ==> var l' := r.value.0;
      && Shaped(l')
      && l' == l.(weights := l'.weights)
      && l'.weights.row == l.weights.row && l'.weights.column == l.weights.column
      && forall a, b :: 0 <= a < l.outputSize && 0 <= b < l.inputSize ==>
           l'.weights.values[a][b] == l.weights.values[a][b] + (if a == i && b == j then delta else 0.0)
  {
    if 0 <= i < l.outputSize && 0 <= j < l.inputSize then
      var row := l.weights.values[i];
      var weights := l.weights.(values := l.weights.values[i := row[j := row[j] + delta]]);
      Ok((l.(weights := weights), row[j]))
    else Err(IndexOutOfRange)
  }

  /** `AdjustBias(i, delta)`: adds `delta` to one bias and returns the value it
      held before; an index outside the array throws. */
  function AdjustBias(l: Layer, i: int, delta: real): (r: Result<(Layer, real)>)
    requires Shaped(l)
    ensures r.Ok? <==> 0 <= i < l.outputSize
    ensures r.Err? ==> r.error == IndexOutOfRange
    ensures r.Ok? ==> r.value.1 == l.biases[i]
    ensures r.Ok? ==> var l' := r.value.0;
      && Shaped(l')
      && l' == l.(biases := l'.biases)
      && forall a :: 0 <= a < l.outputSize ==> l'.biases[a] == l.biases[a] + (if a == i then delta else 0.0)
  {
    if 0 <= i < l.outputSize then Ok((l.(biases := l.biases[i := l.biases[i] + delta]), l.biases[i]))
    else Err(IndexOutOfRange)
  }

  /** Adjusting a weight by `delta` and then by `-delta` gives back the layer it
      started from, and the second call reports the adjusted value. */
  lemma AdjustWeightUndone(l: Layer, i: nat, j: nat, delta: real)
    requires Shaped(l) && i < l.outputSize && j < l.inputSize
    ensures var l' := AdjustWeight(l, i, j, delta).value.0;
      && AdjustWeight(l', i, j, -delta).value.0 == l
      && AdjustWeight(l', i, j, -delta).value.1 == l.weights.values[i][j] + delta
  {
    var l' := AdjustWeight(l, i, j, delta).value.0;
    var l'' := AdjustWeight(l', i, j, -delta).value.0;
    forall a | 0 <= a < l.outputSize ensures l''.weights.values[a] == l.weights.values[a] {
      assert forall b :: 0 <= b < l.inputSize ==> l''.weights.values[a][b] == l.weights.values[a][b];
    }
    assert l''.weights.values == l.weights.values;
  }

  /** Adjusting a bias by `delta` and then by `-delta` gives back the layer it
      started from. */
  lemma AdjustBiasUndone(l: Layer, i: nat, delta: real)
    requires Shaped(l) && i < l.outputSize
    ensures var l' := AdjustBias(l, i, delta).value.0;
      && AdjustBias(l', i, -delta).value.0 == l
      && AdjustBias(l', i, -delta).value.1 == l.biases[i] + delta
  {
    var l' := AdjustBias(l, i, delta).value.0;
    var l'' := AdjustBias(l', i, -delta).value.0;
    assert forall a :: 0 <= a < l.outputSize ==> l''.biases[a] == l.biases[a];
  }

  /** The spelled-out alias the float layer also accepts for tanh. */
  const HyperbolicTangent: string := "hyperbolic tangent"

  /** The tags this layer's `switch` statements recognise. */
  predicate Recognised(tag: string)
  {
    Known(tag) || tag == HyperbolicTangent
  }

  /** The tag of the double-precision layer that behaves like `tag`. */
  function Canonical(tag: string): string
  {
    if tag == HyperbolicTangent then Tanh else tag
  }

  /** The private `Activation(float)`: an unrecognised tag throws. */
  function Activation(m: Maths, tag: string, x: real): (r: Result<real>)
    requires Sound(m)
    ensures r.Ok? <==> Recognised(tag)
    ensures r.Err? ==> r.error == UnknownActivation
    ensures tag == Sigmoid ==> 0.0 < r.value < 1.0
    ensures tag == Tanh || tag == HyperbolicTangent ==> -1.0 < r.value < 1.0
    ensures tag == Relu ==> 0.0 <= r.value && x <= r.value
  {
    if tag == Sigmoid then
      var e := m.exp(-x);
      assert 0.0 < e;
      Ok(1.0 / (1.0 + e))
    else if tag == Tanh then Ok(m.tanh(x))
    else if tag == Relu then Ok(MaxZero(x))
    else if tag == HyperbolicTangent then Ok(m.tanh(x))
    else Err(UnknownActivation)
  }

  /** The float layer's activation is the double layer's under the canonical
      tag, for every tag: the alias behaves as tanh, and an unknown tag fails
      the same way in both. */
  lemma ActivationAgrees(m: Maths, tag: string, x: real)
    requires Sound(m)
    ensures Activation(m, tag, x) == Activations.Activate(m, Canonical(tag), x)
  {
  }

  /** The private `ActivationDerivative(float)`, a function of the raw input
      `x`: sigmoid and tanh recompute the activation, relu tests the sign. */
  function ActivationDerivative(m: Maths, tag: string, x: real): (r: Result<real>)
    requires Sound(m)
    ensures r.Ok? <==> Recognised(tag)
    ensures r.Err? ==> r.error == UnknownActivation
  {
    if tag == Sigmoid then
      var a := Activation(m, tag, x).value;
      Ok(SigmoidSlope(a))
    else if tag == Tanh || tag == HyperbolicTangent then
      var a := Activation(m, tag, x).value;
      Ok(TanhSlope(a))
    else if tag == Relu then Ok(if x > 0.0 then 1.0 else 0.0)
    else Err(UnknownActivation)
  }

  /** Taking the derivative at the raw input is taking the double layer's
      derivative at the activated value. */
  lemma ActivationDerivativeAgrees(m: Maths, tag: string, x: real)
    requires Sound(m) && Recognised(tag)
    ensures ActivationDerivative(m, tag, x) == Activations.Derivative(Canonical(tag), Activation(m, tag, x).value)
  {
    if tag == Relu {
      assert Activation(m, tag, x).value == MaxZero(x);
    } else if tag == HyperbolicTangent {
      assert Canonical(tag) == Tanh;
    }
  }

  /** `FeedForward(input)`: output `i` is the activation of the first
      `inputSize` products of row `i` with the input, plus bias `i`. The
      input is read only at the first `inputSize` positions, so a shorter
      input fails at the first row; an unrecognised tag fails at the first
      output; with no rows nothing is read. */
  function FeedForward(m: Maths, l: Layer, input: Vector): (r: Result<Vector>)
    requires Sound(m) && Shaped(l)
    ensures r.Ok? <==> l.outputSize == 0 || (l.inputSize <= |input| && Recognised(l.activation))
    ensures l.outputSize > 0 && |input| < l.inputSize ==> r == Err(IndexOutOfRange)
    ensures r.Err? && l.inputSize <= |input| ==> r.error == UnknownActivation
    ensures r.Ok? ==> |r.value| == l.outputSize
  {
    if l.outputSize == 0 then Ok([])
    else if |input| < l.inputSize then Err(IndexOutOfRange)
    else if !Recognised(l.activation) then Err(UnknownActivation)
    else Ok(seq(l.outputSize, i requires 0 <= i < l.outputSize =>
      Activation(m, l.activation, SumProducts(l.weights.values[i], input, l.inputSize) + l.biases[i]).value))
  }

  lemma {:induction false} SumProductsPrefix(a: Vector, b: Vector, n: nat, k: nat)
    requires n <= k <= |b| && n <= |a|
    ensures SumProducts(a, b, n) == SumProducts(a, b[..k], n)
  {
    if n > 0 {
      SumProductsPrefix(a, b, n - 1, k);
      assert b[..k][n - 1] == b[n - 1];
    }
  }

  /** Inputs past the first `inputSize` are never read. */
  lemma FeedForwardReadsPrefix(m: Maths, l: Layer, input: Vector)
    requires Sound(m) && Shaped(l) && l.inputSize <= |input|
    ensures FeedForward(m, l, input) == FeedForward(m, l, input[..l.inputSize])
  {
    if l.outputSize > 0 && Recognised(l.activation) {
      var r := FeedForward(m, l, input).value;
      var r' := FeedForward(m, l, input[..l.inputSize]).value;
      forall i | 0 <= i < l.outputSize ensures r[i] == r'[i] {
        SumProductsPrefix(l.weights.values[i], input, l.inputSize, l.inputSize);
      }
      assert r == r';
    }
  }

  /** The double-precision layer with the same parameters and the canonical tag. */
  function AsLayer(l: Layer, cache: Vector): (r: Layers.Layer)
    requires Shaped(l)
    ensures Layers.Shaped(r)
  {
    Layers.Layer(l.inputSize, l.outputSize, l.weights, l.biases, Canonical(l.activation), cache)
  }

  /** On an input of exactly `inputSize` values, the float layer computes what
      the double-precision layer's `Forward` computes, for every recognised tag. */
  lemma FeedForwardAgrees(m: Maths, l: Layer, input: Vector, cache: Vector)
    requires Sound(m) && Shaped(l) && |input| == l.inputSize && Recognised(l.activation)
    ensures FeedForward(m, l, input) == Layers.Forward(m, AsLayer(l, cache), input).1
  {
    var d := AsLayer(l, cache);
    var r := FeedForward(m, l, input);
    var s := Layers.Forward(m, d, input).1;
    assert s.Ok?;
    var z := MatVec(l.weights, input).value;
    var sum := Vectors.Add(z, l.biases).value;
    forall i | 0 <= i < l.outputSize ensures r.value[i] == s.value[i] {
      assert Dot(l.weights.values[i], input) == Ok(z[i]);
      assert sum[i] == SumProducts(l.weights.values[i], input, l.inputSize) + l.biases[i];
      ActivationAgrees(m, l.activation, sum[i]);
    }
    assert r.value == s.value;
  }
}
