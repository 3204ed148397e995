/** The cost helpers `CostParser.Cost` and `Util.Cost`: half the sum of
    squared errors, the same for a target/output pair, and the mean over a
    batch. The two classes hold the same three overloads and are modelled once. */
module Costs {
  import opened Wrappers
  import opened Vectors

  /** The contribution `e * e * 0.5` of one error. */
  function HalfSquare(e: real): real
  {
    e * e * 0.5
  }

  /** One error contributes nothing when it is zero and something positive
      otherwise. */
  lemma HalfSquareSign(e: real)
    ensures HalfSquare(e) >= 0.0
    ensures HalfSquare(e) == 0.0 <==> e == 0.0
  {
    if e != 0.0 {
      calc {
        HalfSquare(e);
        e * e * 0.5;
      >
        0.0;
      }
    } else {
      calc {
        HalfSquare(e);
        0.0 * 0.0 * 0.5;
        0.0;
      }
    }
  }

  /** `Cost(error)`: the sum of the half squares, accumulated from the left. */
  function Cost(error: Vector): (r: real)
    ensures r >= 0.0
    decreases |error|
  {
    if |error| == 0 then 0.0
    else
      HalfSquareSign(error[|error| - 1]);
      Cost(error[..|error| - 1]) + HalfSquare(error[|error| - 1])
  }

  /** The cost is zero exactly when every error is zero. */
  lemma {:induction false} CostZero(error: Vector)
    ensures Cost(error) == 0.0 <==> forall i :: 0 <= i < |error| ==> error[i] == 0.0
    decreases |error|
  {
    if |error| > 0 {
      var init := error[..|error| - 1];
      CostZero(init);
      HalfSquareSign(error[|error| - 1]);
      assert forall i :: 0 <= i < |init| ==> init[i] == error[i];
    }
  }

  /** Negating an error does not change its contribution. */
  lemma HalfSquareOfOpposite(e: real)
    ensures HalfSquare(-e) == HalfSquare(e)
  {
    calc {
      HalfSquare(-e);
      (-e) * (-e) * 0.5;
      e * e * 0.5;
    }
  }

  lemma {:induction false} CostOfOpposite(a: Vector, b: Vector)
    requires |a| == |b|
    requires forall i :: 0 <= i < |a| ==> a[i] == -b[i]
    ensures Cost(a) == Cost(b)
    decreases |a|
  {
    if |a| > 0 {
      var n := |a| - 1;
      CostOfOpposite(a[..n], b[..n]);
      HalfSquareOfOpposite(b[n]);
    }
  }

  /** `Cost(target, output)`: the cost of `target - output`. */
  function PairCost(target: Vector, output: Vector): (r: Result<real>)
    ensures r.Ok? <==> |target| == |output|
    ensures r.Err? ==> r.error == SizeMismatch
    ensures r.Ok? ==> r.value >= 0.0
    ensures r.Ok? ==> (r.value == 0.0 <==> target == output)
  {
    var e :- Vectors.Sub(target, output);
    CostZero(e);
    assert (forall i :: 0 <= i < |e| ==> e[i] == 0.0) <==> target == output by {
      if forall i :: 0 <= i < |e| ==> e[i] == 0.0 {
        assert forall i :: 0 <= i < |target| ==> target[i] == output[i];
      }
    }
    Ok(Cost(e))
  }

  /** The pair cost does not depend on which side is the target. */
  lemma PairCostSymmetric(target: Vector, output: Vector)
    ensures PairCost(target, output) == PairCost(output, target)
  {
    if |target| == |output| {
      CostOfOpposite(Vectors.Sub(target, output).value, Vectors.Sub(output, target).value);
    }
  }

  /** The sum of the first `n` pair costs; `output[i]` is read by index, so a
      short output array fails at the first missing index. */
  function SumCosts(target: seq<Vector>, output: seq<Vector>, n: nat): (r: Result<real>)
    requires n <= |target|
    ensures r.Ok? <==> n <= |output| && forall i :: 0 <= i < n ==> |target[i]| == |output[i]|
    ensures r.Ok? ==> r.value >= 0.0
    ensures |output| == 0 && n > 0 ==> r == Err(IndexOutOfRange)
  {
    if n == 0 then Ok(0.0)
    else
      var total :- SumCosts(target, output, n - 1);
      if n - 1 >= |output| then Err(IndexOutOfRange)
      else
        var c :- PairCost(target[n - 1], output[n - 1]);
        Ok(total + c)
  }

  /** `Cost(target[], output[])`: the mean of the pair costs over the targets. */
  function BatchCost(target: seq<Vector>, output: seq<Vector>): (r: Result<real>)
    requires |target| > 0
    ensures r.Ok? <==> |target| <= |output| && forall i :: 0 <= i < |target| ==> |target[i]| == |output[i]|
    ensures r.Ok? ==> r.value >= 0.0
    ensures |output| == 0 ==> r == Err(IndexOutOfRange)
  {
    var total :- SumCosts(target, output, |target|);
    Ok(total / |target| as real)
  }

  lemma {:induction false} SumCostsPrefix(target: seq<Vector>, output: seq<Vector>, n: nat, m: nat)
    requires n <= |target| && n <= m <= |output|
    ensures SumCosts(target, output, n) == SumCosts(target, output[..m], n)
  {
    if n > 0 {
      SumCostsPrefix(target, output, n - 1, m);
      assert output[..m][n - 1] == output[n - 1];
    }
  }

  /** Targets and outputs are paired by index only: outputs past the last
      target are never read. */
  lemma BatchCostIgnoresExtraOutputs(target: seq<Vector>, output: seq<Vector>)
    requires 0 < |target| <= |output|
    ensures BatchCost(target, output) == BatchCost(target, output[..|target|])
  {
    SumCostsPrefix(target, output, |target|, |target|);
  }

  lemma {:induction false} SumCostsMatching(target: seq<Vector>, n: nat)
    requires n <= |target|
    ensures SumCosts(target, target, n) == Ok(0.0)
  {
    if n > 0 {
      SumCostsMatching(target, n - 1);
    }
  }

  /** A batch whose outputs equal its targets costs nothing. */
  lemma BatchCostOfExactOutputs(target: seq<Vector>)
    requires |target| > 0
    ensures BatchCost(target, target) == Ok(0.0)
  {
    SumCostsMatching(target, |target|);
  }

  /** A batch of one example costs what its pair costs. */
  lemma BatchCostOfOne(target: Vector, output: Vector)
    ensures BatchCost([target], [output]) == PairCost(target, output)
  {
    assert SumCosts([target], [output], 0) == Ok(0.0);
  }
}
