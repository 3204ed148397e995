/** The `Network` class of the framework: a list of layers built from a
    topology, evaluated as a fold, trained by backpropagation and scored by a
    cost threshold. Every method that changes the network returns the new
    network together with its result; a failing call still returns the state
    the network was left in. */
module Networks {
  import opened Wrappers
  import Rng
  import opened Vectors
  import opened Matrices
  import opened Activations
  import opened Layers
  import Costs

  datatype Network = Network(layers: seq<Layer>)

  /** Every weight matrix satisfies the matrix class invariant. */
  predicate AllValid(layers: seq<Layer>)
  {
    forall k :: 0 <= k < |layers| ==> Valid(layers[k].weights)
  }

  /** Each layer has its own shapes and feeds the next one. */
  predicate Chained(layers: seq<Layer>)
  {
    && (forall k :: 0 <= k < |layers| ==> Shaped(layers[k]))
    && (forall k :: 0 <= k < |layers| - 1 ==> layers[k].nodesOut == layers[k + 1].nodesIn)
  }

  predicate WellFormed(n: Network)
  {
    Chained(n.layers)
  }

  /** Every activation tag is one the layers recognise. */
  predicate Usable(layers: seq<Layer>)
  {
    forall k :: 0 <= k < |layers| ==> Known(layers[k].activation)
  }

  /** `b` is `a` with, at most, other cached inputs. */
  predicate SameParameters(a: seq<Layer>, b: seq<Layer>)
  {
    && |a| == |b|
    && forall k :: 0 <= k < |a| ==> b[k] == a[k].(lastInput := b[k].lastInput)
  }

  /** `b` is `a` with, at most, other weights, biases and cached inputs. */
  predicate SameFrames(a: seq<Layer>, b: seq<Layer>)
  {
    && |a| == |b|
    && forall k :: 0 <= k < |a| ==> SameFrame(a[k], b[k])
  }

  /** Every layer has cached an input of the size it reads. */
  predicate Cached(layers: seq<Layer>)
  {
    forall k :: 0 <= k < |layers| ==> |layers[k].lastInput| == layers[k].nodesIn
  }

  // ---------------------------------------------------------------------------
  // Construction

  /** One random sigmoid layer per entry of `sizes`, the first reading `prev`
      inputs and each later one reading what the previous one writes. The
      first negative size fails its layer's allocation. */
  function CreateLayers(prev: int, sizes: seq<int>, rng: Rng.Stream): (r: Result<(seq<Layer>, Rng.Stream)>)
    ensures r.Ok? <==> |sizes| == 0 || (prev >= 0 && forall k :: 0 <= k < |sizes| ==> sizes[k] >= 0)
    ensures r.Err? ==> r.error == NegativeSize
    ensures r.Ok? ==> |r.value.0| == |sizes| && Chained(r.value.0)
    ensures r.Ok? && |sizes| > 0 ==> r.value.0[0].nodesIn == prev
    ensures r.Ok? ==> forall k :: 0 <= k < |sizes| ==> r.value.0[k].nodesOut == sizes[k]
    ensures r.Ok? ==> forall k :: 0 <= k < |sizes| ==> r.value.0[k].activation == Sigmoid
    ensures r.Ok? && Rng.Unit(rng) ==> Rng.Unit(r.value.1)
    decreases |sizes|
  {
    if |sizes| == 0 then Ok(([], rng))
    else
      var first :- Layers.Random(prev, sizes[0], Sigmoid, rng);
      var rest :- CreateLayers(sizes[0], sizes[1..], first.1);
      Ok(([first.0] + rest.0, rest.1))
  }

  /** `new Network(input, hidden, output)`: `hidden.Length + 1` sigmoid layers
      whose sizes run `input`, `hidden[0]`, ..., `output`. A negative size
      anywhere fails the construction. */
  function Create(input: int, hidden: seq<int>, output: int, rng: Rng.Stream): (r: Result<(Network, Rng.Stream)>)
    ensures r.Ok? <==> input >= 0 && output >= 0 && forall k :: 0 <= k < |hidden| ==> hidden[k] >= 0
    ensures r.Err? ==> r.error == NegativeSize
    ensures r.Ok? ==> var n := r.value.0;
      && WellFormed(n) && Usable(n.layers)
      && |n.layers| == |hidden| + 1
      && n.layers[0].nodesIn == input
      && (forall k :: 0 <= k < |hidden| ==> n.layers[k].nodesOut == hidden[k])
      && n.layers[|hidden|].nodesOut == output
    ensures r.Ok? && Rng.Unit(rng) ==> Rng.Unit(r.value.1)
  {
    var sizes := hidden + [output];
    assert forall k :: 0 <= k < |hidden| ==> sizes[k] == hidden[k];
    assert sizes[|hidden|] == output;
    var ls :- CreateLayers(input, sizes, rng);
    Ok((Network(ls.0), ls.1))
  }

  // ---------------------------------------------------------------------------
  // Evaluation

  /** `Forward`: each layer's `Forward` applied to what the previous one
      produced. The first failure stops the fold; the layers up to and
      including the failing one have already cached their inputs. */
  function ForwardAll(m: Maths, layers: seq<Layer>, input: Vector): (r: (seq<Layer>, Result<Vector>))
    requires Sound(m) && AllValid(layers)
    ensures SameParameters(layers, r.0)
    ensures AllValid(r.0)
    ensures |layers| > 0 ==> r.0[0].lastInput == input
    ensures |layers| == 0 ==> r.1 == Ok(input)
    ensures Chained(layers) && |layers| > 0 ==>
      (r.1.Ok? <==> |input| == layers[0].nodesIn
                    && forall k :: 0 <= k < |layers| ==> layers[k].nodesOut == 0 || Known(layers[k].activation))
    ensures Chained(layers) && |layers| > 0 && r.1.Ok? ==> |r.1.value| == layers[|layers| - 1].nodesOut
    ensures Chained(layers) && r.1.Ok? ==> Cached(r.0)
    decreases |layers|
  {
    if |layers| == 0 then ([], Ok(input))
    else
      var (l0, out) := Layers.Forward(m, layers[0], input);
      if out.Err? then ([l0] + layers[1..], out)
      else
        var (rest, res) := ForwardAll(m, layers[1..], out.value);
        ([l0] + rest, res)
  }

  function Forward(m: Maths, n: Network, input: Vector): (r: (Network, Result<Vector>))
    requires Sound(m) && AllValid(n.layers)
    ensures SameParameters(n.layers, r.0.layers)
  {
    var (ls, out) := ForwardAll(m, n.layers, input);
    (Network(ls), out)
  }

  /** `Predict` is `Forward`. */
  function Predict(m: Maths, n: Network, input: Vector): (r: (Network, Result<Vector>))
    requires Sound(m) && AllValid(n.layers)
  {
    Forward(m, n, input)
  }

  /** After a successful `Forward`, every layer's cached input is what the
      layer before it produces from its own cached input, and the result is
      what the last layer produces from its cached input. */
  lemma {:induction false} ForwardCaches(m: Maths, layers: seq<Layer>, input: Vector)
    requires Sound(m) && AllValid(layers) && |layers| > 0
    requires ForwardAll(m, layers, input).1.Ok?
    ensures var (ls, out) := ForwardAll(m, layers, input);
      && (forall k :: 0 <= k < |ls| - 1 ==> Layers.Forward(m, ls[k], ls[k].lastInput).1 == Ok(ls[k + 1].lastInput))
      && Layers.Forward(m, ls[|ls| - 1], ls[|ls| - 1].lastInput).1 == out
    decreases |layers|
  {
    var (ls, out) := ForwardAll(m, layers, input);
    var (l0, o0) := Layers.Forward(m, layers[0], input);
    ForwardIgnoresCache(m, layers[0], input, l0.lastInput);
    if |layers| > 1 {
      ForwardCaches(m, layers[1..], o0.value);
      var (rest, res) := ForwardAll(m, layers[1..], o0.value);
      assert ls == [l0] + rest;
      assert rest[0].lastInput == o0.value;
    }
  }

  /** The result of `Forward` depends on the weights, biases and tags only,
      never on the cached inputs. */
  lemma {:induction false} ForwardIgnoresCaches(m: Maths, a: seq<Layer>, b: seq<Layer>, input: Vector)
    requires Sound(m) && AllValid(a) && SameParameters(a, b)
    ensures AllValid(b)
    ensures ForwardAll(m, a, input).1 == ForwardAll(m, b, input).1
    decreases |a|
  {
    if |a| > 0 {
      ForwardIgnoresCache(m, a[0], input, b[0].lastInput);
      assert b[0] == a[0].(lastInput := b[0].lastInput);
      var o := Layers.Forward(m, a[0], input).1;
      if o.Ok? {
        ForwardIgnoresCaches(m, a[1..], b[1..], o.value);
      }
    }
  }

  // ---------------------------------------------------------------------------
  // Backpropagation

  /** The gradients of one layer's weights and biases. */
  datatype Gradient = Gradient(w: Matrix, b: Vector)

  /** `g` has the layer's shapes and its weight gradient is the outer product
      of its bias gradient and the layer's cached input. */
  predicate Outer(l: Layer, g: Gradient)
  {
    && Valid(g.w) && g.w.row == l.nodesOut && g.w.column == l.nodesIn && |g.b| == l.nodesOut
    && forall a, b :: 0 <= a < l.nodesOut && 0 <= b < l.nodesIn ==>
         b < |l.lastInput| && g.w.values[a][b] == g.b[a] * l.lastInput[b]
  }

  /** The gradient loop of one layer: `gradientB[i] = delta[i]` and
      `gradientW[i][j] = delta[i] * LastInput[j]` for `i < NodesOut` and
      `j < NodesIn`, reading `delta` and the cached input by index. The random
      values the gradient objects start with are all overwritten; allocating
      them fails first when the output size is negative. */
  function LayerGradient(l: Layer, delta: Vector): (r: Result<Gradient>)
    ensures r.Ok? <==> l.nodesOut == 0 || (0 < l.nodesOut <= |delta| && l.nodesIn <= |l.lastInput|)
    ensures l.nodesOut < 0 ==> r == Err(NegativeSize)
    ensures l.nodesOut >= 0 && r.Err? ==> r.error == IndexOutOfRange
    ensures r.Ok? ==> Outer(l, r.value)
    ensures r.Ok? ==> r.value.b == delta[..l.nodesOut]
  {
    if l.nodesOut < 0 then Err(NegativeSize)
    else if l.nodesOut > 0 && (|delta| < l.nodesOut || |l.lastInput| < l.nodesIn) then Err(IndexOutOfRange)
    else
      Ok(Gradient(
        Matrix(l.nodesOut, l.nodesIn,
          seq(l.nodesOut, i requires 0 <= i < l.nodesOut =>
            seq(l.nodesIn, j requires 0 <= j < l.nodesIn => delta[i] * l.lastInput[j]))),
        delta[..l.nodesOut]))
  }

  /** The delta handed to the layer below: `~Weights * delta`, multiplied
      element by element with this layer's `Derivative(LastInput)`. The
      transpose product fails first, then an unknown tag, then a derivative
      shorter than the product. */
  function Propagate(l: Layer, delta: Vector): (r: Result<Vector>)
    requires Valid(l.weights)
    ensures r.Ok? <==>
      && l.weights.column >= 0
      && l.weights.row == |delta|
      && (|l.lastInput| == 0 || Known(l.activation))
      && l.weights.column <= |l.lastInput|
    ensures l.weights.column < 0 ==> r == Err(NegativeSize)
    ensures l.weights.column >= 0 && l.weights.row != |delta| ==> r == Err(SizeMismatch)
    ensures l.weights.column >= 0 && l.weights.row == |delta| && |l.lastInput| > 0 && !Known(l.activation)
      ==> r == Err(UnknownActivation)
    ensures r.Err? && l.weights.column >= 0 && l.weights.row == |delta| && (|l.lastInput| == 0 || Known(l.activation))
      ==> r == Err(IndexOutOfRange)
    ensures r.Ok? ==> |r.value| == l.weights.column
    ensures r.Ok? ==> forall j :: 0 <= j < l.weights.column ==>
      && Dot(Transpose(l.weights).value.values[j], delta).Ok?
      && Derivative(l.activation, l.lastInput[j]).Ok?
      && r.value[j] == Dot(Transpose(l.weights).value.values[j], delta).value * Derivative(l.activation, l.lastInput[j]).value
  {
    var t :- Transpose(l.weights);
    var e :- MatVec(t, delta);
    var d :- DerivativeAll(l, l.lastInput);
    if |d| < |e| then Err(IndexOutOfRange)
    else Ok(seq(|e|, i requires 0 <= i < |e| => e[i] * d[i]))
  }

  /** The backward loop from layer `k - 1` down to layer 0, starting from
      that layer's `delta`; the gradients come back indexed like the layers.
      Layer 0 still propagates a delta nobody uses. */
  function Backward(layers: seq<Layer>, k: nat, delta: Vector): (r: Result<seq<Gradient>>)
    requires AllValid(layers) && k <= |layers|
    ensures r.Ok? ==> |r.value| == k
    ensures r.Ok? ==> forall i :: 0 <= i < k ==> Outer(layers[i], r.value[i])
    decreases k
  {
    if k == 0 then Ok([])
    else
      var g :- LayerGradient(layers[k - 1], delta);
      var next :- Propagate(layers[k - 1], delta);
      var gs :- Backward(layers, k - 1, next);
      Ok(gs + [g])
  }

  /** In a chained network whose caches are filled, the backward loop
      succeeds from any delta of the right size; each layer's bias gradient is
      its delta, and the delta of layer `i - 1` is the delta of layer `i`
      propagated through layer `i`'s weights as they were before any update. */
  lemma {:induction false} BackwardChain(layers: seq<Layer>, k: nat, delta: Vector)
    requires Chained(layers) && Cached(layers) && Usable(layers)
    requires 0 < k <= |layers| && |delta| == layers[k - 1].nodesOut
    ensures Backward(layers, k, delta).Ok?
    ensures Backward(layers, k, delta).value[k - 1].b == delta
    ensures forall i :: 0 < i < k ==>
      Propagate(layers[i], Backward(layers, k, delta).value[i].b) == Ok(Backward(layers, k, delta).value[i - 1].b)
    decreases k
  {
    var l := layers[k - 1];
    assert Shaped(l);
    var g := LayerGradient(l, delta).value;
    assert g.b == delta;
    var next := Propagate(l, delta).value;
    if k > 1 {
      assert l.nodesIn == layers[k - 2].nodesOut;
      BackwardChain(layers, k - 1, next);
      var gs := Backward(layers, k - 1, next).value;
      var all := Backward(layers, k, delta).value;
      assert all == gs + [g];
      forall i | 0 < i < k
        ensures Propagate(layers[i], all[i].b) == Ok(all[i - 1].b)
      {
        if i < k - 1 {
          assert all[i] == gs[i] && all[i - 1] == gs[i - 1];
        } else {
          assert all[i - 1] == gs[k - 2];
        }
      }
    }
  }

  /** `Learn` up to the end of the backward loop, on the layers as `Forward`
      left them: `output - target`, the last layer's derivative of the output,
      their element-wise product as the output delta, then the backward loop. */
  function Gradients(layers: seq<Layer>, output: Vector, target: Vector): (r: Result<seq<Gradient>>)
    requires AllValid(layers)
    ensures |output| != |target| ==> r == Err(SizeMismatch)
    ensures |layers| == 0 && |output| == |target| ==> r == Err(IndexOutOfRange)
    ensures r.Ok? ==> |r.value| == |layers|
    ensures r.Ok? ==> forall i :: 0 <= i < |layers| ==> Outer(layers[i], r.value[i])
  {
    var error :- Vectors.Sub(output, target);
    if |layers| == 0 then Err(IndexOutOfRange)
    else
      var derivative :- DerivativeAll(layers[|layers| - 1], output);
      Backward(layers, |layers|, Hadamard(error, derivative))
  }

  /** The output delta of `Learn` when the sizes agree and the tag is known:
      the error times the derivative of the output, entry by entry. */
  function Delta(last: Layer, output: Vector, target: Vector): (r: Vector)
    requires |output| == |target| && Known(last.activation)
    ensures |r| == |output|
  {
    Hadamard(Vectors.Sub(output, target).value, DerivativeAll(last, output).value)
  }

  /** Entry `i` of the output delta is `(output[i] - target[i])` times the
      last layer's derivative at `output[i]`. */
  lemma DeltaEntries(last: Layer, output: Vector, target: Vector)
    requires |output| == |target| && Known(last.activation)
    ensures forall i :: 0 <= i < |output| ==>
      Delta(last, output, target)[i] == (output[i] - target[i]) * Derivative(last.activation, output[i]).value
  {
    var dv := DerivativeAll(last, output).value;
    forall i | 0 <= i < |output|
      ensures Delta(last, output, target)[i] == (output[i] - target[i]) * Derivative(last.activation, output[i]).value
    {
      assert Derivative(last.activation, output[i]) == Ok(dv[i]);
    }
  }

  /** In a chained, usable network with filled caches, the output delta
      becomes the last layer's bias gradient and the backward pass cannot
      fail. */
  lemma OutputDelta(layers: seq<Layer>, output: Vector, target: Vector)
    requires Chained(layers) && Cached(layers) && Usable(layers) && |layers| > 0
    requires |output| == |target| == layers[|layers| - 1].nodesOut
    ensures Known(layers[|layers| - 1].activation)
    ensures Gradients(layers, output, target).Ok?
    ensures Gradients(layers, output, target).value[|layers| - 1].b == Delta(layers[|layers| - 1], output, target)
  {
    var last := layers[|layers| - 1];
    var delta := Delta(last, output, target);
    BackwardChain(layers, |layers|, delta);
    assert Gradients(layers, output, target) == Backward(layers, |layers|, delta);
  }

  /** The gradient has the layer's shapes. */
  predicate Fits(l: Layer, g: Gradient)
  {
    SameShape(l.weights, g.w) && |l.biases| == |g.b|
  }

  /** `after` is `before` with every weight and bias moved by `-rate` times
      its gradient, and nothing else changed. */
  predicate Stepped(before: Layer, g: Gradient, rate: real, after: Layer)
  {
    && Valid(before.weights) && Valid(g.w) && Fits(before, g)
    && after == before.(weights := after.weights, biases := after.biases)
    && Valid(after.weights) && SameShape(after.weights, g.w) && |after.biases| == |g.b|
    && (forall i, j :: 0 <= i < g.w.row && 0 <= j < g.w.column ==>
          after.weights.values[i][j] == before.weights.values[i][j] - rate * g.w.values[i][j])
    && (forall i :: 0 <= i < |g.b| ==> after.biases[i] == before.biases[i] - rate * g.b[i])
  }

  /** `after` differs from `before` at most in weights and biases of the same
      shapes. */
  predicate Kept(before: Layer, after: Layer)
  {
    && after == before.(weights := after.weights, biases := after.biases)
    && Valid(after.weights) && SameShape(after.weights, before.weights)
    && |after.biases| == |before.biases|
  }

  /** Every layer's `ApplyGradient` in turn, stopping at the first failure. */
  function ApplyAll(layers: seq<Layer>, gs: seq<Gradient>, rate: real): (r: (seq<Layer>, Outcome))
    requires AllValid(layers) && |gs| == |layers|
    requires forall k :: 0 <= k < |gs| ==> Valid(gs[k].w)
    ensures |r.0| == |layers|
    ensures forall k :: 0 <= k < |layers| ==> Kept(layers[k], r.0[k])
    ensures r.1.Ok? <==> forall k :: 0 <= k < |layers| ==> Fits(layers[k], gs[k])
    ensures r.1.Err? ==> r.1.error == SizeMismatch
    ensures r.1.Ok? ==> forall k :: 0 <= k < |layers| ==> Stepped(layers[k], gs[k], rate, r.0[k])
    decreases |layers|
  {
    if |layers| == 0 then ([], Done)
    else
      var (l0, o) := ApplyGradient(layers[0], gs[0].w, gs[0].b, rate);
      if o.Err? then ([l0] + layers[1..], o)
      else
        var (rest, o') := ApplyAll(layers[1..], gs[1..], rate);
        ([l0] + rest, o')
  }

  /** Layers that first only cache and then only move parameters keep their
      frames and chaining, and the caches the first change left. */
  lemma CacheThenKeep(a: seq<Layer>, b: seq<Layer>, c: seq<Layer>)
    requires SameParameters(a, b) && |c| == |b|
    requires forall k :: 0 <= k < |b| ==> Kept(b[k], c[k])
    ensures SameFrames(a, c)
    ensures Chained(a) ==> Chained(c)
    ensures forall k :: 0 <= k < |a| ==> c[k].lastInput == b[k].lastInput
  {
    SameParametersKeepShapes(a, b);
  }

  /** The part of `Learn` after the forward pass, on the layers as it left
      them: the backward pass, and only then every layer's update. */
  function Backprop(cached: seq<Layer>, output: Vector, target: Vector, rate: real): (r: (seq<Layer>, Outcome))
    requires AllValid(cached)
    ensures |r.0| == |cached| && AllValid(r.0)
    ensures forall k :: 0 <= k < |cached| ==> Kept(cached[k], r.0[k])
    ensures |cached| == 0 ==> r.1.Err?
    ensures r.1.Ok? ==>
      && Gradients(cached, output, target).Ok?
      && var gs := Gradients(cached, output, target).value;
      forall k :: 0 <= k < |cached| ==> Stepped(cached[k], gs[k], rate, r.0[k])
  {
    var gs := Gradients(cached, output, target);
    if gs.Err? then (cached, Err(gs.error))
    else ApplyAll(cached, gs.value, rate)
  }

  /** `Learn`: a forward pass, the backward pass over the layers as the
      forward pass left them, and only then every layer's update. */
  function Learn(m: Maths, n: Network, input: Vector, target: Vector, rate: real): (r: (Network, Outcome))
    requires Sound(m) && AllValid(n.layers)
    ensures AllValid(r.0.layers) && SameFrames(n.layers, r.0.layers)
    ensures WellFormed(n) ==> WellFormed(r.0)
    ensures |n.layers| == 0 ==> r.1.Err?
    ensures var (cached, out) := ForwardAll(m, n.layers, input);
      forall k :: 0 <= k < |n.layers| ==> r.0.layers[k].lastInput == cached[k].lastInput
    ensures r.1.Ok? ==>
      var (cached, out) := ForwardAll(m, n.layers, input);
      && out.Ok? && Gradients(cached, out.value, target).Ok?
      && var gs := Gradients(cached, out.value, target).value;
      forall k :: 0 <= k < |n.layers| ==> Stepped(cached[k], gs[k], rate, r.0.layers[k])
  {
    var (cached, out) := ForwardAll(m, n.layers, input);
    if out.Err? then
      SameParametersKeepShapes(n.layers, cached);
      (Network(cached), Err(out.error))
    else
      var (updated, o) := Backprop(cached, out.value, target, rate);
      CacheThenKeep(n.layers, cached, updated);
      (Network(updated), o)
  }

  /** Layers that differ only in their caches are chained, usable and valid
      alike. */
  lemma SameParametersKeepShapes(a: seq<Layer>, b: seq<Layer>)
    requires SameParameters(a, b)
    ensures Chained(a) ==> Chained(b)
    ensures Usable(a) ==> Usable(b)
    ensures AllValid(a) ==> AllValid(b)
    ensures forall k :: 0 <= k < |a| ==> a[k].nodesIn == b[k].nodesIn && a[k].nodesOut == b[k].nodesOut
  {
    assert forall k :: 0 <= k < |a| ==> b[k] == a[k].(lastInput := b[k].lastInput);
  }

  /** In a well-formed network with usable tags, `Learn` succeeds exactly
      when the input and the target have the sizes of the first layer's input
      and the last layer's output. */
  lemma LearnOutcome(m: Maths, n: Network, input: Vector, target: Vector, rate: real)
    requires Sound(m) && WellFormed(n) && Usable(n.layers) && |n.layers| > 0
    ensures Learn(m, n, input, target, rate).1.Ok? <==>
      |input| == n.layers[0].nodesIn && |target| == n.layers[|n.layers| - 1].nodesOut
  {
    var (cached, out) := ForwardAll(m, n.layers, input);
    if out.Ok? {
      SameParametersKeepShapes(n.layers, cached);
      if |target| == |out.value| {
        OutputDelta(cached, out.value, target);
        var gs := Gradients(cached, out.value, target).value;
        assert forall k :: 0 <= k < |cached| ==> Outer(cached[k], gs[k]) && Shaped(cached[k]);
        assert forall k :: 0 <= k < |cached| ==> Fits(cached[k], gs[k]);
      }
    }
  }

  /** A step of size zero changes nothing. */
  lemma ZeroStep(before: Layer, g: Gradient, after: Layer)
    requires Stepped(before, g, 0.0, after)
    ensures after == before
  {
    forall i | 0 <= i < g.w.row
      ensures after.weights.values[i] == before.weights.values[i]
    {
      assert forall j :: 0 <= j < g.w.column ==> after.weights.values[i][j] == before.weights.values[i][j];
    }
    assert after.weights.values == before.weights.values;
    assert after.biases == before.biases;
  }

  /** Updating with a zero rate and gradients of the right shapes leaves
      every layer as it was. */
  lemma ApplyAllAtZeroRate(layers: seq<Layer>, gs: seq<Gradient>)
    requires AllValid(layers) && |gs| == |layers|
    requires forall k :: 0 <= k < |gs| ==> Valid(gs[k].w) && Fits(layers[k], gs[k])
    ensures ApplyAll(layers, gs, 0.0) == (layers, Done)
  {
    var r := ApplyAll(layers, gs, 0.0);
    assert r.1.Ok?;
    ZeroSteps(layers, gs, r.0);
  }

  /** Zero steps layer by layer change no layer. */
  lemma ZeroSteps(before: seq<Layer>, gs: seq<Gradient>, after: seq<Layer>)
    requires |before| == |gs| == |after|
    requires forall k :: 0 <= k < |gs| ==> Stepped(before[k], gs[k], 0.0, after[k])
    ensures after == before
  {
    forall k | 0 <= k < |gs|
      ensures after[k] == before[k]
    {
      ZeroStep(before[k], gs[k], after[k]);
    }
  }

  /** With a zero learning rate, `Learn` on a well-formed network does no more
      than `Forward`: only the cached inputs change. */
  lemma LearnAtZeroRate(m: Maths, n: Network, input: Vector, target: Vector)
    requires Sound(m) && WellFormed(n)
    ensures Learn(m, n, input, target, 0.0).0 == Forward(m, n, input).0
  {
    var (cached, out) := ForwardAll(m, n.layers, input);
    SameParametersKeepShapes(n.layers, cached);
    if out.Ok? && Gradients(cached, out.value, target).Ok? {
      var gs := Gradients(cached, out.value, target).value;
      assert forall k :: 0 <= k < |cached| ==> Outer(cached[k], gs[k]) && Shaped(cached[k]);
      assert forall k :: 0 <= k < |cached| ==> Fits(cached[k], gs[k]);
      ApplyAllAtZeroRate(cached, gs);
    }
  }

  // ---------------------------------------------------------------------------
  // Accuracy and training

  /** `0.05f`, the float the cost is compared against. */
  const Threshold: real := 13421773.0 / 268435456.0

  /** `0.2f`, the default learning rate. */
  const DefaultRate: real := 13421773.0 / 67108864.0

  /** The default number of epochs. */
  const DefaultEpochs: int := 100

  /** An example counts as correct when the cost of `target - output` stays
      below the threshold. */
  predicate Correct(target: Vector, output: Vector)
  {
    |target| == |output| && Costs.Cost(Vectors.Sub(target, output).value) < Threshold
  }

  /** The correct-count loop of `Accuracy` from example `i` on. Every example
      goes through `Predict`, which refreshes the caches; a missing target, an
      output of the wrong size or a failing prediction throws. */
  function CountFrom(m: Maths, layers: seq<Layer>, inputs: seq<Vector>, targets: seq<Vector>, i: nat)
    : (r: (seq<Layer>, Result<nat>))
    requires Sound(m) && AllValid(layers) && i <= |inputs|
    ensures SameParameters(layers, r.0) && AllValid(r.0)
    ensures r.1.Ok? ==> r.1.value <= |inputs| - i
    decreases |inputs| - i
  {
    if i == |inputs| then (layers, Ok(0))
    else
      var (ls, out) := ForwardAll(m, layers, inputs[i]);
      if out.Err? then (ls, Err(out.error))
      else if i >= |targets| then (ls, Err(IndexOutOfRange))
      else
        var e := Vectors.Sub(targets[i], out.value);
        if e.Err? then (ls, Err(e.error))
        else
          var (ls', c) := CountFrom(m, ls, inputs, targets, i + 1);
          if c.Err? then (ls', c)
          else (ls', Ok(c.value + if Costs.Cost(e.value) < Threshold then 1 else 0))
  }

  /** The number of examples from `i` on that the fixed parameters of
      `layers` get right, with no caches involved. */
  function Hits(m: Maths, layers: seq<Layer>, inputs: seq<Vector>, targets: seq<Vector>, i: nat): nat
    requires Sound(m) && AllValid(layers) && i <= |inputs|
    decreases |inputs| - i
  {
    if i == |inputs| then 0
    else
      var out := ForwardAll(m, layers, inputs[i]).1;
      Hits(m, layers, inputs, targets, i + 1)
        + if out.Ok? && i < |targets| && Correct(targets[i], out.value) then 1 else 0
  }

  /** The threaded count agrees with the count against fixed parameters: the
      caches `Predict` leaves behind never change a later prediction. */
  lemma {:induction false} CountFromHits(m: Maths, layers: seq<Layer>, inputs: seq<Vector>, targets: seq<Vector>, i: nat)
    requires Sound(m) && AllValid(layers) && i <= |inputs|
    ensures CountFrom(m, layers, inputs, targets, i).1.Ok? ==>
      CountFrom(m, layers, inputs, targets, i).1.value == Hits(m, layers, inputs, targets, i)
    decreases |inputs| - i
  {
    if i < |inputs| {
      var (ls, out) := ForwardAll(m, layers, inputs[i]);
      if out.Ok? && i < |targets| && |targets[i]| == |out.value| {
        CountFromHits(m, ls, inputs, targets, i + 1);
        HitsIgnoreCaches(m, layers, ls, inputs, targets, i + 1);
      }
    }
  }

  lemma {:induction false} HitsIgnoreCaches(m: Maths, a: seq<Layer>, b: seq<Layer>, inputs: seq<Vector>, targets: seq<Vector>, i: nat)
    requires Sound(m) && AllValid(a) && SameParameters(a, b) && i <= |inputs|
    ensures AllValid(b)
    ensures Hits(m, a, inputs, targets, i) == Hits(m, b, inputs, targets, i)
    decreases |inputs| - i
  {
    SameParametersKeepShapes(a, b);
    if i < |inputs| {
      ForwardIgnoresCaches(m, a, b, inputs[i]);
      HitsIgnoreCaches(m, a, b, inputs, targets, i + 1);
    }
  }

  /** `Accuracy`: the fraction of examples whose cost is below the threshold.
      An empty batch would divide zero by zero, so it is excluded. */
  function Accuracy(m: Maths, n: Network, inputs: seq<Vector>, targets: seq<Vector>): (r: (Network, Result<real>))
    requires Sound(m) && AllValid(n.layers) && |inputs| > 0
    ensures SameParameters(n.layers, r.0.layers) && AllValid(r.0.layers)
    ensures r.1.Ok? ==> 0.0 <= r.1.value <= 1.0
    ensures r.1.Ok? ==> r.1.value == Hits(m, n.layers, inputs, targets, 0) as real / |inputs| as real
  {
    var (ls, c) := CountFrom(m, n.layers, inputs, targets, 0);
    CountFromHits(m, n.layers, inputs, targets, 0);
    if c.Err? then (Network(ls), Err(c.error))
    else
      Fraction(c.value, |inputs|);
      (Network(ls), Ok(c.value as real / |inputs| as real))
  }

  /** A count out of a positive total is a fraction in [0, 1]. */
  lemma Fraction(c: nat, n: nat)
    requires 0 < n && c <= n
    ensures 0.0 <= c as real / n as real <= 1.0
  {
    assert c as real / n as real * n as real == c as real;
  }

  /** Every input has the first layer's input size and every target, present
      for each input, has the last layer's output size. */
  predicate Fitting(layers: seq<Layer>, inputs: seq<Vector>, targets: seq<Vector>, i: nat)
    requires |layers| > 0
  {
    && (i < |inputs| ==> |inputs| <= |targets|)
    && forall j :: i <= j < |inputs| ==>
         |inputs[j]| == layers[0].nodesIn && j < |targets| && |targets[j]| == layers[|layers| - 1].nodesOut
  }

  /** In a well-formed network with usable tags, the count succeeds exactly
      when every example fits the network. */
  lemma {:induction false} CountFromOutcome(m: Maths, layers: seq<Layer>, inputs: seq<Vector>, targets: seq<Vector>, i: nat)
    requires Sound(m) && Chained(layers) && Usable(layers) && |layers| > 0 && i <= |inputs|
    ensures CountFrom(m, layers, inputs, targets, i).1.Ok? <==> Fitting(layers, inputs, targets, i)
    decreases |inputs| - i
  {
    if i < |inputs| {
      var (ls, out) := ForwardAll(m, layers, inputs[i]);
      SameParametersKeepShapes(layers, ls);
      FittingStep(layers, ls, inputs, targets, i);
      if out.Ok? && i < |targets| && |targets[i]| == |out.value| {
        CountFromOutcome(m, ls, inputs, targets, i + 1);
      }
    }
  }

  /** `Fitting` from `i` is the check of example `i` followed by `Fitting`
      from `i + 1`, on any layers with the same end sizes. */
  lemma FittingStep(a: seq<Layer>, b: seq<Layer>, inputs: seq<Vector>, targets: seq<Vector>, i: nat)
    requires 0 < |a| == |b| && i < |inputs|
    requires a[0].nodesIn == b[0].nodesIn && a[|a| - 1].nodesOut == b[|b| - 1].nodesOut
    ensures Fitting(a, inputs, targets, i) <==>
      && |inputs[i]| == a[0].nodesIn && i < |targets| && |targets[i]| == a[|a| - 1].nodesOut
      && Fitting(b, inputs, targets, i + 1)
  {
  }

  /** In a well-formed network with usable tags, `Accuracy` succeeds exactly
      when every example fits the network. */
  lemma AccuracyOutcome(m: Maths, n: Network, inputs: seq<Vector>, targets: seq<Vector>)
    requires Sound(m) && WellFormed(n) && Usable(n.layers) && |n.layers| > 0 && |inputs| > 0
    ensures Accuracy(m, n, inputs, targets).1.Ok? <==> Fitting(n.layers, inputs, targets, 0)
  {
    CountFromOutcome(m, n.layers, inputs, targets, 0);
  }

  /** The `Learn` loop of one epoch from example `i` on, in example order;
      `targets[i]` is read before each call. */
  function LearnFrom(m: Maths, layers: seq<Layer>, inputs: seq<Vector>, targets: seq<Vector>, rate: real, i: nat)
    : (r: (seq<Layer>, Outcome))
    requires Sound(m) && AllValid(layers) && i <= |inputs|
    ensures AllValid(r.0) && SameFrames(layers, r.0)
    ensures Chained(layers) ==> Chained(r.0)
    ensures r.1.Ok? && i < |inputs| ==> |inputs| <= |targets|
    decreases |inputs| - i
  {
    if i == |inputs| then (layers, Done)
    else if i >= |targets| then (layers, Err(IndexOutOfRange))
    else
      var (n', o) := Learn(m, Network(layers), inputs[i], targets[i], rate);
      if o.Err? then (n'.layers, o)
      else LearnFrom(m, n'.layers, inputs, targets, rate, i + 1)
  }

  /** `inputs.Select(Predict).ToArray()`: every prediction in order, each
      refreshing the caches. */
  function PredictFrom(m: Maths, layers: seq<Layer>, inputs: seq<Vector>, i: nat)
    : (r: (seq<Layer>, Result<seq<Vector>>))
    requires Sound(m) && AllValid(layers) && i <= |inputs|
    ensures SameParameters(layers, r.0) && AllValid(r.0)
    ensures r.1.Ok? ==> |r.1.value| == |inputs| - i
    decreases |inputs| - i
  {
    if i == |inputs| then (layers, Ok([]))
    else
      var (ls, out) := ForwardAll(m, layers, inputs[i]);
      if out.Err? then (ls, Err(out.error))
      else
        var (ls', outs) := PredictFrom(m, ls, inputs, i + 1);
        if outs.Err? then (ls', outs)
        else (ls', Ok([out.value] + outs.value))
  }

  /** Each prediction is what the network's fixed parameters produce for its
      input, whatever the earlier predictions left in the caches. */
  lemma {:induction false} PredictFromOutputs(m: Maths, layers: seq<Layer>, inputs: seq<Vector>, i: nat)
    requires Sound(m) && AllValid(layers) && i <= |inputs|
    requires PredictFrom(m, layers, inputs, i).1.Ok?
    ensures var outs := PredictFrom(m, layers, inputs, i).1.value;
      forall j :: i <= j < |inputs| ==> ForwardAll(m, layers, inputs[j]).1 == Ok(outs[j - i])
    decreases |inputs| - i
  {
    if i < |inputs| {
      var (ls, out) := ForwardAll(m, layers, inputs[i]);
      var rest := PredictFrom(m, ls, inputs, i + 1).1;
      assert out.Ok? && rest.Ok?;
      var outs := PredictFrom(m, layers, inputs, i).1.value;
      assert outs == [out.value] + rest.value;
      PredictFromOutputs(m, ls, inputs, i + 1);
      SameParametersKeepShapes(layers, ls);
      forall j | i <= j < |inputs|
        ensures ForwardAll(m, layers, inputs[j]).1 == Ok(outs[j - i])
      {
        if j > i {
          ForwardIgnoresCaches(m, layers, ls, inputs[j]);
          assert outs[j - i] == rest.value[j - (i + 1)];
        }
      }
    }
  }


  /** The two figures `Train` reports after an epoch. */
  datatype Report = Report(cost: real, accuracy: real)

  /** A cost is never negative and an accuracy is a fraction. */
  predicate InRange(rep: Report)
  {
    rep.cost >= 0.0 && 0.0 <= rep.accuracy <= 1.0
  }

  predicate AllInRange(reports: seq<Report>)
  {
    forall e :: 0 <= e < |reports| ==> InRange(reports[e])
  }

  lemma AllInRangeCons(first: Report, rest: seq<Report>)
    requires InRange(first) && AllInRange(rest)
    ensures AllInRange([first] + rest)
  {
  }

  /** What `Train` computes: one report per epoch and the final accuracy. */
  datatype Training = Training(reports: seq<Report>, finalAccuracy: real)

  /** The figures of an epoch after its learning: the batch cost of all
      predictions, then the accuracy. Evaluating moves only the caches. The
      learning before it has already read a target for every input. With no
      inputs there are no predictions, and the batch cost throws on reading
      the first one. */
  function Assess(m: Maths, layers: seq<Layer>, inputs: seq<Vector>, targets: seq<Vector>)
    : (r: (seq<Layer>, Result<Report>))
    requires Sound(m) && AllValid(layers) && 0 < |targets| && |inputs| <= |targets|
    ensures AllValid(r.0) && SameParameters(layers, r.0)
    ensures r.1.Ok? ==> InRange(r.1.value)
    ensures |inputs| == 0 ==> r == (layers, Err(IndexOutOfRange))
  {
    var (l2, outs) := PredictFrom(m, layers, inputs, 0);
    if outs.Err? then (l2, Err(outs.error))
    else
      var cost := Costs.BatchCost(targets, outs.value);
      if cost.Err? then (l2, Err(cost.error))
      else
        var (n3, acc) := Accuracy(m, Network(l2), inputs, targets);
        SameParametersTrans(layers, l2, n3.layers);
        (n3.layers, if acc.Err? then Err(acc.error) else Ok(Report(cost.value, acc.value)))
  }

  /** Moving parameters and then only caches keeps the frames. */
  lemma FramesThenCache(a: seq<Layer>, b: seq<Layer>, c: seq<Layer>)
    requires SameFrames(a, b) && SameParameters(b, c)
    ensures SameFrames(a, c)
    ensures Chained(b) ==> Chained(c)
  {
    SameParametersKeepShapes(b, c);
  }

  /** One epoch: every example learnt in order, then the batch cost of all
      predictions, then the accuracy. An epoch without inputs learns nothing
      and then throws in the batch cost, which reads a prediction for every
      target. */
  function Epoch(m: Maths, layers: seq<Layer>, inputs: seq<Vector>, targets: seq<Vector>, rate: real)
    : (r: (seq<Layer>, Result<Report>))
    requires Sound(m) && AllValid(layers) && (|inputs| > 0 || |targets| > 0)
    ensures |inputs| == 0 ==> r == (layers, Err(IndexOutOfRange))
    ensures AllValid(r.0) && SameFrames(layers, r.0)
    ensures Chained(layers) ==> Chained(r.0)
    ensures r.1.Ok? ==> InRange(r.1.value)
  {
    var (l1, o) := LearnFrom(m, layers, inputs, targets, rate, 0);
    if o.Err? then (l1, Err(o.error))
    else
      var (l2, rep) := Assess(m, l1, inputs, targets);
      FramesThenCache(layers, l1, l2);
      (l2, rep)
  }

  /** `epochs` epochs in a row, stopping at the first failure. */
  function Epochs(m: Maths, layers: seq<Layer>, inputs: seq<Vector>, targets: seq<Vector>, rate: real, epochs: nat)
    : (r: (seq<Layer>, Result<seq<Report>>))
    requires Sound(m) && AllValid(layers) && (|inputs| > 0 || |targets| > 0)
    ensures AllValid(r.0) && SameFrames(layers, r.0)
    ensures Chained(layers) ==> Chained(r.0)
    ensures |inputs| == 0 && epochs > 0 ==> r == (layers, Err(IndexOutOfRange))
    ensures r.1.Ok? ==> |r.1.value| == epochs
    ensures r.1.Ok? ==> AllInRange(r.1.value)
    ensures rate == 0.0 && Chained(layers) ==> SameParameters(layers, r.0)
    decreases epochs
  {
    if epochs == 0 then (layers, Ok([]))
    else
      var first := Epoch(m, layers, inputs, targets, rate);
      if first.1.Err? then
        if rate == 0.0 && Chained(layers) then EpochAtZeroRate(m, layers, inputs, targets); (first.0, Err(first.1.error))
        else (first.0, Err(first.1.error))
      else
        var rest := Epochs(m, first.0, inputs, targets, rate, epochs - 1);
        if rate == 0.0 && Chained(layers) then
          EpochAtZeroRate(m, layers, inputs, targets);
          SameParametersTrans(layers, first.0, rest.0);
          if rest.1.Err? then rest
          else
            AllInRangeCons(first.1.value, rest.1.value);
            (rest.0, Ok([first.1.value] + rest.1.value))
        else if rest.1.Err? then rest
        else
          AllInRangeCons(first.1.value, rest.1.value);
          (rest.0, Ok([first.1.value] + rest.1.value))
  }

  /** `Train(inputs, targets, learningRate, epochs)`: the epochs (none when
      `epochs` is not positive), then the final accuracy. The console output
      is replaced by the figures it shows. Without inputs, the first epoch
      throws before the final accuracy would divide by zero. */
  function Train(m: Maths, n: Network, inputs: seq<Vector>, targets: seq<Vector>, rate: real, epochs: int)
    : (r: (Network, Result<Training>))
    requires Sound(m) && AllValid(n.layers) && (|inputs| > 0 || (epochs > 0 && |targets| > 0))
    ensures |inputs| == 0 ==> r == (n, Err(IndexOutOfRange))
    ensures AllValid(r.0.layers) && SameFrames(n.layers, r.0.layers)
    ensures WellFormed(n) ==> WellFormed(r.0)
    ensures r.1.Ok? ==> |r.1.value.reports| == if epochs > 0 then epochs else 0
    ensures r.1.Ok? ==> AllInRange(r.1.value.reports)
    ensures r.1.Ok? ==> 0.0 <= r.1.value.finalAccuracy <= 1.0
  {
    var (ls, reports) := Epochs(m, n.layers, inputs, targets, rate, if epochs > 0 then epochs else 0);
    if reports.Err? then (Network(ls), Err(reports.error))
    else
      var (n', acc) := Accuracy(m, Network(ls), inputs, targets);
      if acc.Err? then (n', Err(acc.error))
      else (n', Ok(Training(reports.value, acc.value)))
  }

  /** Without epochs, training only measures the accuracy. */
  lemma TrainWithoutEpochs(m: Maths, n: Network, inputs: seq<Vector>, targets: seq<Vector>, rate: real, epochs: int)
    requires Sound(m) && AllValid(n.layers) && |inputs| > 0 && epochs <= 0
    ensures var (n', r) := Train(m, n, inputs, targets, rate, epochs);
      var (a, acc) := Accuracy(m, n, inputs, targets);
      n' == a && (r.Ok? <==> acc.Ok?) && (r.Ok? ==> r.value == Training([], acc.value))
  {
  }

  lemma SameParametersTrans(a: seq<Layer>, b: seq<Layer>, c: seq<Layer>)
    requires SameParameters(a, b) && SameParameters(b, c)
    ensures SameParameters(a, c)
  {
  }

  lemma {:induction false} LearnFromAtZeroRate(m: Maths, layers: seq<Layer>, inputs: seq<Vector>, targets: seq<Vector>, i: nat)
    requires Sound(m) && Chained(layers) && i <= |inputs|
    ensures SameParameters(layers, LearnFrom(m, layers, inputs, targets, 0.0, i).0)
    decreases |inputs| - i
  {
    if i < |inputs| && i < |targets| {
      var n := Network(layers);
      LearnAtZeroRate(m, n, inputs[i], targets[i]);
      var (n', o) := Learn(m, n, inputs[i], targets[i], 0.0);
      if o.Ok? {
        SameParametersKeepShapes(layers, n'.layers);
        LearnFromAtZeroRate(m, n'.layers, inputs, targets, i + 1);
        SameParametersTrans(layers, n'.layers, LearnFrom(m, layers, inputs, targets, 0.0, i).0);
      }
    }
  }

  lemma EpochAtZeroRate(m: Maths, layers: seq<Layer>, inputs: seq<Vector>, targets: seq<Vector>)
    requires Sound(m) && Chained(layers) && (|inputs| > 0 || |targets| > 0)
    ensures SameParameters(layers, Epoch(m, layers, inputs, targets, 0.0).0)
  {
    LearnFromAtZeroRate(m, layers, inputs, targets, 0);
    var (l1, o) := LearnFrom(m, layers, inputs, targets, 0.0, 0);
    if o.Ok? {
      SameParametersKeepShapes(layers, l1);
      SameParametersTrans(layers, l1, Assess(m, l1, inputs, targets).0);
    }
  }

  /** Training a well-formed network with a zero learning rate leaves every
      weight, bias and tag as it was; only the caches move. */
  lemma TrainAtZeroRate(m: Maths, n: Network, inputs: seq<Vector>, targets: seq<Vector>, epochs: int)
    requires Sound(m) && WellFormed(n) && (|inputs| > 0 || (epochs > 0 && |targets| > 0))
    ensures SameParameters(n.layers, Train(m, n, inputs, targets, 0.0, epochs).0.layers)
  {
    var e := if epochs > 0 then epochs else 0;
    var (ls, reports) := Epochs(m, n.layers, inputs, targets, 0.0, e);
    if reports.Ok? {
      SameParametersKeepShapes(n.layers, ls);
      var (n', acc) := Accuracy(m, Network(ls), inputs, targets);
      SameParametersTrans(n.layers, ls, n'.layers);
    }
  }
}
