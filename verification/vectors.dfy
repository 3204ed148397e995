/** The `Vector` class: a fixed-size sequence of reals with bounds-checked
    indexing and size-checked arithmetic. Values are immutable here; an
    operation that writes returns the new vector. */
module Vectors {
  import opened Wrappers
  import opened Text
  import Rng

  type Vector = seq<real>

  /** `new Vector(size, init)`: the initialisation values must be exactly
      `size` long; they then become the vector's values. */
  function FromValues(size: int, init: seq<real>): (r: Result<Vector>)
    ensures r.Ok? <==> size == |init|
    ensures r.Ok? ==> r.value == init
    ensures r.Err? ==> r.error == SizeMismatch
  {
    if size != |init| then Err(SizeMismatch) else Ok(init)
  }

  /** `new Vector(size)`: `size` random values, together with the draws left
      over. A negative size fails the array allocation. */
  function Random(size: int, rng: Rng.Stream): (r: Result<(Vector, Rng.Stream)>)
    ensures r.Ok? <==> size >= 0
    ensures r.Err? ==> r.error == NegativeSize
    ensures r.Ok? ==> |r.value.0| == size
    ensures r.Ok? && Rng.Unit(rng) ==> forall i :: 0 <= i < size ==> -1.0 <= r.value.0[i] < 1.0
    ensures r.Ok? && Rng.Unit(rng) ==> Rng.Unit(r.value.1)
    ensures r.Ok? ==> forall i: nat :: r.value.1(i) == rng(i + size)
  {
    if size < 0 then Err(NegativeSize) else Ok((Rng.Draws(rng, size), Rng.Skip(rng, size)))
  }

  /** The indexer's getter. */
  function Get(v: Vector, index: int): (r: Result<real>)
    ensures r.Ok? <==> 0 <= index < |v|
    ensures r.Ok? ==> r.value == v[index]
    ensures r.Err? ==> r.error == IndexOutOfRange
  {
    if index <= -1 || index >= |v| then Err(IndexOutOfRange) else Ok(v[index])
  }

  /** The indexer's setter: only the slot at `index` changes. */
  function Set(v: Vector, index: int, x: real): (r: Result<Vector>)
    ensures r.Ok? <==> 0 <= index < |v|
    ensures r.Ok? ==> |r.value| == |v| && r.value[index] == x
    ensures r.Ok? ==> forall j :: 0 <= j < |v| && j != index ==> r.value[j] == v[j]
    ensures r.Err? ==> r.error == IndexOutOfRange
  {
    if index <= -1 || index >= |v| then Err(IndexOutOfRange) else Ok(v[index := x])
  }

  /** `a + b`. */
  function Add(a: Vector, b: Vector): (r: Result<Vector>)
    ensures r.Ok? <==> |a| == |b|
    ensures r.Ok? ==> |r.value| == |a|
    ensures r.Ok? ==> forall i :: 0 <= i < |a| ==> r.value[i] == a[i] + b[i]
    ensures r.Err? ==> r.error == SizeMismatch
  {
    if |a| != |b| then Err(SizeMismatch)
    else Ok(seq(|a|, i requires 0 <= i < |a| => a[i] + b[i]))
  }

  /** `a * k`; `k * a` is defined as `a * k`. */
  function Scale(a: Vector, k: real): (r: Vector)
    ensures |r| == |a|
    ensures forall i :: 0 <= i < |a| ==> r[i] == a[i] * k
  {
    seq(|a|, i requires 0 <= i < |a| => a[i] * k)
  }

  /** `a - b`, which the engine defines as `a + b * -1`. */
  function Sub(a: Vector, b: Vector): (r: Result<Vector>)
    ensures r.Ok? <==> |a| == |b|
    ensures r.Ok? ==> |r.value| == |a|
    ensures r.Ok? ==> forall i :: 0 <= i < |a| ==> r.value[i] == a[i] - b[i]
    ensures r.Err? ==> r.error == SizeMismatch
  {
    Add(a, Scale(b, -1.0))
  }

  /** `a / k`, which the engine defines as `a * (1 / k)`. */
  function Div(a: Vector, k: real): (r: Vector)
    requires k != 0.0
    ensures |r| == |a|
    ensures forall i :: 0 <= i < |a| ==> r[i] == a[i] / k
  {
    Scale(a, 1.0 / k)
  }

  /** The element-wise product, as the engine writes it out in loops. */
  function Hadamard(a: Vector, b: Vector): (r: Vector)
    requires |a| == |b|
    ensures |r| == |a|
    ensures forall i :: 0 <= i < |a| ==> r[i] == a[i] * b[i]
  {
    seq(|a|, i requires 0 <= i < |a| => a[i] * b[i])
  }

  /** a[0] * b[0] + ... + a[n-1] * b[n-1], accumulated from the left. */
  function SumProducts(a: Vector, b: Vector, n: nat): real
    requires n <= |a| && n <= |b|
  {
    if n == 0 then 0.0 else SumProducts(a, b, n - 1) + a[n - 1] * b[n - 1]
  }

  /** The dot product `a * b`. */
  function Dot(a: Vector, b: Vector): (r: Result<real>)
    ensures r.Ok? <==> |a| == |b|
    ensures r.Err? ==> r.error == SizeMismatch
  {
    if |a| != |b| then Err(SizeMismatch) else Ok(SumProducts(a, b, |a|))
  }

  /** The engine's dot-product loop computes the sum of products. */
  method DotProduct(a: Vector, b: Vector) returns (r: Result<real>)
    ensures r == Dot(a, b)
  {
    if |a| != |b| {
      return Err(SizeMismatch);
    }
    var res := 0.0;
    var i := 0;
    while i < |a|
      invariant 0 <= i <= |a|
      invariant res == SumProducts(a, b, i)
    {
      res := res + a[i] * b[i];
      i := i + 1;
    }
    return Ok(res);
  }

  lemma {:induction false} SumProductsSymmetric(a: Vector, b: Vector, n: nat)
    requires n <= |a| && n <= |b|
    ensures SumProducts(a, b, n) == SumProducts(b, a, n)
  {
    if n > 0 {
      SumProductsSymmetric(a, b, n - 1);
    }
  }

  /** The dot product does not depend on the order of its operands. */
  lemma DotSymmetric(a: Vector, b: Vector)
    ensures Dot(a, b) == Dot(b, a)
  {
    if |a| == |b| {
      SumProductsSymmetric(a, b, |a|);
    }
  }

  lemma {:induction false} SumProductsScale(a: Vector, b: Vector, k: real, n: nat)
    requires n <= |a| && n <= |b|
    ensures SumProducts(Scale(a, k), b, n) == k * SumProducts(a, b, n)
  {
    if n > 0 {
      SumProductsScale(a, b, k, n - 1);
      var x, y, rest := a[n - 1], b[n - 1], SumProducts(a, b, n - 1);
      assert Scale(a, k)[n - 1] == x * k;
      calc {
        SumProducts(Scale(a, k), b, n);
        k * rest + (x * k) * y;
        { assert (x * k) * y == k * (x * y); }
        k * (rest + x * y);
      }
    }
  }

  /** Scaling one operand scales the dot product. */
  lemma DotScale(a: Vector, b: Vector, k: real)
    requires |a| == |b|
    ensures Dot(Scale(a, k), b).Ok?
    ensures Dot(Scale(a, k), b).value == k * Dot(a, b).value
  {
    SumProductsScale(a, b, k, |a|);
  }

  /** Subtracting and adding back the same vector restores the original. */
  lemma SubThenAdd(a: Vector, b: Vector)
    requires |a| == |b|
    ensures Add(Sub(a, b).value, b) == Ok(a)
  {
    var d := Sub(a, b).value;
    assert Add(d, b).value == a;
  }

  /** `a + b` and `b + a` agree. */
  lemma AddCommutes(a: Vector, b: Vector)
    ensures Add(a, b) == Add(b, a)
  {
    if |a| == |b| {
      assert Add(a, b).value == Add(b, a).value;
    }
  }

  /** Scaling by 1 is the identity and scaling twice multiplies the factors. */
  lemma ScaleLaws(a: Vector, k: real, l: real)
    ensures Scale(a, 1.0) == a
    ensures Scale(Scale(a, k), l) == Scale(a, k * l)
  {
    assert Scale(a, 1.0) == a;
    forall i | 0 <= i < |a|
      ensures Scale(Scale(a, k), l)[i] == Scale(a, k * l)[i]
    {
      assert (a[i] * k) * l == a[i] * (k * l);
    }
  }

  /** `ToString`: the values separated by single spaces, no trailing separator. */
  function Show(f: NumberFormat, v: Vector): string
  {
    Join(ShowReals(f, v), ' ')
  }

  /** Splitting a non-empty vector's text at spaces gives one token per value,
      each parsing back to that value; the text is a single line. This holds
      when every value renders exactly. */
  lemma ShowTokens(f: NumberFormat, v: Vector)
    requires AllExact(f, v)
    ensures |v| > 0 ==> Split(Show(f, v), ' ') == ShowReals(f, v)
    ensures forall i :: 0 <= i < |v| ==> f.parseReal(ShowReals(f, v)[i]) == Some(v[i])
    ensures OneLine(Show(f, v))
  {
    var ts := ShowReals(f, v);
    forall i | 0 <= i < |ts|
      ensures Token(ts[i]) && f.parseReal(ts[i]) == Some(v[i])
    {
      assert ts[i] == f.showReal(v[i]) && Exact(f, v[i]);
    }
    if |v| > 0 {
      SplitJoin(ts, ' ');
    }
    JoinFree(ts, ' ', '\n');
    JoinFree(ts, ' ', '\r');
  }
}
