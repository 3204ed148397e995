/** The `Layer` class (double precision): an affine map `W x + b` followed by
    an activation chosen by a string tag, with the last input cached for
    backpropagation. Methods that mutate the layer return the new layer. */
module Layers {
  import opened Wrappers
  import Rng
  import opened Vectors
  import opened Matrices
  import opened Activations

  datatype Layer = Layer(
    nodesIn: nat,
    nodesOut: int,
    weights: Matrix,
    biases: Vector,
    activation: string,
    lastInput: Vector)

  /** The shapes the random constructor produces and the loader builds:
      weights `nodesOut x nodesIn`, biases of size `nodesOut`. */
  predicate Shaped(l: Layer)
  {
    && Valid(l.weights)
    && l.weights.row == l.nodesOut
    && l.weights.column == l.nodesIn
    && |l.biases| == l.nodesOut
  }

  /** True when two layers differ at most in their weights, biases and cache. */
  predicate SameFrame(a: Layer, b: Layer)
  {
    a.nodesIn == b.nodesIn && a.nodesOut == b.nodesOut && a.activation == b.activation
  }

  /** `new Layer(nodesIn, nodesOut, activation)`: random weights, then random
      biases, then a random cache; the tag is stored without being checked.
      A negative size fails one of the three allocations. */
  function Random(nodesIn: int, nodesOut: int, activation: string, rng: Rng.Stream)
    : (r: Result<(Layer, Rng.Stream)>)
    ensures r.Ok? <==> nodesIn >= 0 && nodesOut >= 0
    ensures r.Err? ==> r.error == NegativeSize
    ensures r.Ok? ==> Shaped(r.value.0) && |r.value.0.lastInput| == nodesIn
    ensures r.Ok? ==> var l := r.value.0;
      l.nodesIn == nodesIn && l.nodesOut == nodesOut && l.activation == activation
    ensures r.Ok? && Rng.Unit(rng) ==> Rng.Unit(r.value.1)
  {
    var w :- Matrices.Random(nodesOut, nodesIn, rng);
    var b := Vectors.Random(nodesOut, w.1).value;
    var cache :- Vectors.Random(nodesIn, b.1);
    Ok((Layer(nodesIn, nodesOut, w.0, b.0, activation, cache.0), cache.1))
  }

  /** `new Layer(nodesIn, nodesOut, weights, biases, activation)`: weights,
      biases and tag are stored as given, with no check against the sizes;
      only the cache is random. */
  function FromParts(nodesIn: int, nodesOut: int, weights: Matrix, biases: Vector,
                     activation: string, rng: Rng.Stream): (r: Result<(Layer, Rng.Stream)>)
    ensures r.Ok? <==> nodesIn >= 0
    ensures r.Err? ==> r.error == NegativeSize
    ensures r.Ok? ==> var l := r.value.0;
      && l.nodesIn == nodesIn && l.nodesOut == nodesOut
      && l.weights == weights && l.biases == biases && l.activation == activation
      && |l.lastInput| == nodesIn
    ensures r.Ok? && Rng.Unit(rng) ==> Rng.Unit(r.value.1)
  {
    var cache :- Vectors.Random(nodesIn, rng);
    Ok((Layer(nodesIn, nodesOut, weights, biases, activation, cache.0), cache.1))
  }

  /** The private `Activate(Vector)`: the activation element by element. An
      unrecognised tag throws at the first element, so never on an empty vector. */
  function ActivateAll(m: Maths, tag: string, v: Vector): (r: Result<Vector>)
    requires Sound(m)
    ensures r.Ok? <==> |v| == 0 || Known(tag)
    ensures r.Err? ==> r.error == UnknownActivation
    ensures r.Ok? ==> |r.value| == |v|
    ensures r.Ok? ==> forall i :: 0 <= i < |v| ==> Activate(m, tag, v[i]) == Ok(r.value[i])
  {
    if |v| > 0 && !Known(tag) then Err(UnknownActivation)
    else Ok(seq(|v|, i requires 0 <= i < |v| => Activate(m, tag, v[i]).value))
  }

  /** `Forward`: the cache is overwritten first, then `Activate(W * input + b)`
      is computed, so a failing call still leaves the new cache behind. */
  function Forward(m: Maths, l: Layer, input: Vector): (r: (Layer, Result<Vector>))
    requires Sound(m) && Valid(l.weights)
    ensures r.0 == l.(lastInput := input)
    ensures r.1.Ok? <==>
      && l.weights.column == |input|
      && l.weights.row == |l.biases|
      && (l.weights.row == 0 || Known(l.activation))
    ensures r.1.Ok? ==> |r.1.value| == l.weights.row
    ensures Shaped(l) ==> (r.1.Ok? <==> |input| == l.nodesIn && (l.nodesOut == 0 || Known(l.activation)))
    ensures Shaped(l) && r.1.Ok? ==> |r.1.value| == l.nodesOut
  {
    var l' := l.(lastInput := input);
    var z := MatVec(l.weights, input);
    if z.Err? then (l', Err(z.error))
    else
      var s := Vectors.Add(z.value, l.biases);
      if s.Err? then (l', Err(s.error))
      else (l', ActivateAll(m, l.activation, s.value))
  }

  /** The output of `Forward`, which does not depend on the cache. */
  lemma ForwardIgnoresCache(m: Maths, l: Layer, input: Vector, cache: Vector)
    requires Sound(m) && Valid(l.weights)
    ensures Forward(m, l.(lastInput := cache), input).1 == Forward(m, l, input).1
  {
  }

  /** The public `Derivative(Vector)`: the derivative element by element, with
      the same first-use failure for an unrecognised tag. */
  function DerivativeAll(l: Layer, v: Vector): (r: Result<Vector>)
    ensures r.Ok? <==> |v| == 0 || Known(l.activation)
    ensures r.Err? ==> r.error == UnknownActivation
    ensures r.Ok? ==> |r.value| == |v|
    ensures r.Ok? ==> forall i :: 0 <= i < |v| ==> Derivative(l.activation, v[i]) == Ok(r.value[i])
  {
    if |v| > 0 && !Known(l.activation) then Err(UnknownActivation)
    else Ok(seq(|v|, i requires 0 <= i < |v| => Derivative(l.activation, v[i]).value))
  }

  /** `ApplyGradient`: `weights -= gradientW * rate`, then
      `biases -= gradientB * rate`. A weight-shape mismatch throws before
      anything changes; a bias-size mismatch throws after the weights have
      already been updated. */
  function ApplyGradient(l: Layer, gW: Matrix, gB: Vector, rate: real): (r: (Layer, Outcome))
    requires Valid(l.weights) && Valid(gW)
    ensures r.1.Ok? <==> SameShape(l.weights, gW) && |l.biases| == |gB|
    ensures r.1.Err? ==> r.1.error == SizeMismatch
    ensures !SameShape(l.weights, gW) ==> r.0 == l
    ensures r.0 == l.(weights := r.0.weights, biases := r.0.biases)
    ensures SameShape(l.weights, gW) ==>
      && Valid(r.0.weights) && SameShape(r.0.weights, l.weights)
      && (forall i, j :: 0 <= i < gW.row && 0 <= j < gW.column ==>
            r.0.weights.values[i][j] == l.weights.values[i][j] - rate * gW.values[i][j])
    ensures SameShape(l.weights, gW) && |l.biases| != |gB| ==> r.0.biases == l.biases
    ensures r.1.Ok? ==> |r.0.biases| == |l.biases|
    ensures r.1.Ok? ==> forall i :: 0 <= i < |gB| ==> r.0.biases[i] == l.biases[i] - rate * gB[i]
  {
    var w := Matrices.Sub(l.weights, Matrices.Scale(gW, rate));
    if w.Err? then (l, Err(w.error))
    else
      var l' := l.(weights := w.value);
      var b := Vectors.Sub(l.biases, Vectors.Scale(gB, rate));
      if b.Err? then (l', Err(b.error))
      else (l'.(biases := b.value), Done)
  }

  /** A zero learning rate leaves weights and biases exactly as they were. */
  lemma ZeroRateKeepsParameters(l: Layer, gW: Matrix, gB: Vector)
    requires Valid(l.weights) && Valid(gW)
    requires SameShape(l.weights, gW) && |l.biases| == |gB|
    ensures ApplyGradient(l, gW, gB, 0.0) == (l, Done)
  {
    var r := ApplyGradient(l, gW, gB, 0.0).0;
    forall i | 0 <= i < gW.row
      ensures r.weights.values[i] == l.weights.values[i]
    {
      assert forall j :: 0 <= j < gW.column ==> r.weights.values[i][j] == l.weights.values[i][j];
    }
    assert r.weights.values == l.weights.values;
    assert r.biases == l.biases;
  }
}
