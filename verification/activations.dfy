/** Activation functions, selected by a string tag, and their derivatives
    expressed on already-activated values. `Math.Exp` and `Math.Tanh` are not
    modelled numerically: they are the two fields of a `Maths` record, of which
    only positivity of `exp` and the open bounds of `tanh` are assumed. */
module Activations {
  import opened Wrappers

  datatype Maths = Maths(exp: real -> real, tanh: real -> real)

  /** What the model assumes of `Math.Exp` and `Math.Tanh`. */
  ghost predicate Sound(m: Maths)
  {
    && (forall x: real :: 0.0 < m.exp(x))
    && (forall x: real :: -1.0 < m.tanh(x) < 1.0)
  }

  const Sigmoid: string := "sigmoid"
  const Tanh: string := "tanh"
  const Relu: string := "relu"

  /** The tags the `switch` statements recognise. */
  predicate Known(tag: string)
  {
    tag == Sigmoid || tag == Tanh || tag == Relu
  }

  /** `Math.Max(0, x)`. */
  function MaxZero(x: real): real
  {
    if x > 0.0 then x else 0.0
  }

  /** The private `Activate(double)`: an unrecognised tag throws. */
  function Activate(m: Maths, tag: string, x: real): (r: Result<real>)
    requires Sound(m)
    ensures r.Ok? <==> Known(tag)
    ensures r.Err? ==> r.error == UnknownActivation
    ensures tag == Sigmoid ==> 0.0 < r.value < 1.0
    ensures tag == Tanh ==> -1.0 < r.value < 1.0
    ensures tag == Relu ==> 0.0 <= r.value && x <= r.value
  {
    if tag == Sigmoid then
      var e := m.exp(-x);
      assert 0.0 < e;
      Ok(1.0 / (1.0 + e))
    else if tag == Tanh then Ok(m.tanh(x))
    else if tag == Relu then Ok(MaxZero(x))
    else Err(UnknownActivation)
  }

  /** The sigmoid slope written on the activated value `y`: `y * (1 - y)`. */
  function SigmoidSlope(y: real): real
  {
    y * (1.0 - y)
  }

  /** The tanh slope written on the activated value `y`: `1 - y * y`. */
  function TanhSlope(y: real): real
  {
    1.0 - y * y
  }

  /** The private `Derivative(double)`, a function of the activated value `y`. */
  function Derivative(tag: string, y: real): (r: Result<real>)
    ensures r.Ok? <==> Known(tag)
    ensures r.Err? ==> r.error == UnknownActivation
  {
    if tag == Sigmoid then Ok(SigmoidSlope(y))
    else if tag == Tanh then Ok(TanhSlope(y))
    else if tag == Relu then Ok(if y > 0.0 then 1.0 else 0.0)
    else Err(UnknownActivation)
  }

  /** On the value relu produced, the relu derivative is 1 exactly when the raw
      input was positive, so working on activated values loses nothing. */
  lemma ReluDerivativeOnActivated(m: Maths, x: real)
    requires Sound(m)
    ensures Derivative(Relu, Activate(m, Relu, x).value) == Ok(if x > 0.0 then 1.0 else 0.0)
  {
  }

  /** On values sigmoid produced, the sigmoid derivative lies in (0, 1/4]. */
  lemma SigmoidDerivativeOnActivated(m: Maths, x: real)
    requires Sound(m)
    ensures 0.0 < Derivative(Sigmoid, Activate(m, Sigmoid, x).value).value <= 0.25
  {
    var y := Activate(m, Sigmoid, x).value;
    assert 0.0 < y < 1.0;
    assert y * (1.0 - y) > 0.0;
    assert 0.25 - y * (1.0 - y) == (y - 0.5) * (y - 0.5);
  }

  /** On values tanh produced, the tanh derivative lies in (0, 1]. */
  lemma TanhDerivativeOnActivated(m: Maths, x: real)
    requires Sound(m)
    ensures 0.0 < Derivative(Tanh, Activate(m, Tanh, x).value).value <= 1.0
  {
    var y := Activate(m, Tanh, x).value;
    assert -1.0 < y < 1.0;
    assert y * y < 1.0 by {
      if y >= 0.0 {
        assert y * y <= y * 1.0;
      } else {
        assert y * y <= (-y) * 1.0;
      }
    }
  }
}
