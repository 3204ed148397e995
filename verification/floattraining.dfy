/** `Train` and `Test` of the float-array `Network`: learning every example
    of an epoch in order, then counting how many examples the network scores
    right, for the given number of epochs. The console lines that report the
    epoch and the accuracy are not modelled; the counts behind them are. */
module FloatTraining {
  import opened Wrappers
  import opened Vectors
  import opened Activations
  import opened FloatNetworks
  import Loops

  // ----- Scoring -----

  /** The accuracy test on the first output: a positive answer above one half
      for a target of one, or an answer of at most one half for a target of
      zero. */
  predicate Hit(output: real, target: real)
  {
    (output > 0.5 && target == 1.0) || (output <= 0.5 && target == 0.0)
  }

  /** Scoring example `i`: evaluating it, then reading the first output and
      the first target, either of which may be missing. */
  function Score(m: Maths, n: Network, inputs: seq<Vector>, targets: seq<Vector>, i: nat): (r: Result<bool>)
    requires Sound(m) && Shaped(n) && i < |inputs|
    ensures r.Ok? ==> FeedForward(m, n, inputs[i]).Ok? && i < |targets| && |targets[i]| > 0
    ensures r.Err? ==> FeedForward(m, n, inputs[i]).Err? || r.error == IndexOutOfRange
    ensures r == Ok(true) ==> targets[i][0] == 1.0 || targets[i][0] == 0.0
  {
    var output :- FeedForward(m, n, inputs[i]);
    if |output| == 0 || i >= |targets| || |targets[i]| == 0 then Err(IndexOutOfRange)
    else Ok(Hit(output[0], targets[i][0]))
  }

  /** The numbers from `i` up to, not including, `bound` that satisfy `p`. */
  ghost function Among(p: nat -> bool, i: nat, bound: nat): set<nat>
  {
    set j: nat | i <= j < bound && p(j)
  }

  /** Taking one number off the front of the range. */
  lemma AmongStep(p: nat -> bool, i: nat, bound: nat)
    requires i < bound
    ensures i !in Among(p, i + 1, bound)
    ensures Among(p, i, bound) == Among(p, i + 1, bound) + (if p(i) then {i} else {})
  {
  }

  /** The examples from `i` on that score a hit. */
  ghost function Hits(m: Maths, n: Network, inputs: seq<Vector>, targets: seq<Vector>, i: nat): set<nat>
    requires Sound(m) && Shaped(n)
  {
    Among((j: nat) => j < |inputs| && Score(m, n, inputs, targets, j) == Ok(true), i, |inputs|)
  }

  /** The accuracy loop from example `i` on: the number of hits, or the first
      exception met. */
  function CountFrom(m: Maths, n: Network, inputs: seq<Vector>, targets: seq<Vector>, i: nat): (r: Result<nat>)
    requires Sound(m) && Shaped(n) && i <= |inputs|
    ensures r.Ok? <==> forall j :: i <= j < |inputs| ==> Score(m, n, inputs, targets, j).Ok?
    ensures r.Err? ==> exists j :: i <= j < |inputs| && Score(m, n, inputs, targets, j) == Err(r.error)
    ensures r.Ok? ==> r.value <= |inputs| - i
    ensures r.Ok? ==> (r.value == |inputs| - i <==> forall j :: i <= j < |inputs| ==> Score(m, n, inputs, targets, j).value)
    ensures r.Ok? ==> (r.value == 0 <==> forall j :: i <= j < |inputs| ==> !Score(m, n, inputs, targets, j).value)
    decreases |inputs| - i
  {
    if i == |inputs| then Ok(0)
    else
      var hit :- Score(m, n, inputs, targets, i);
      var rest :- CountFrom(m, n, inputs, targets, i + 1);
      Ok((if hit then 1 else 0) + rest)
  }

  /** The count is the number of examples that score a hit. */
  lemma {:induction false} CountIsHits(m: Maths, n: Network, inputs: seq<Vector>, targets: seq<Vector>, i: nat)
    requires Sound(m) && Shaped(n) && i <= |inputs|
    requires CountFrom(m, n, inputs, targets, i).Ok?
    ensures CountFrom(m, n, inputs, targets, i).value == |Hits(m, n, inputs, targets, i)|
    decreases |inputs| - i
  {
    var p := (j: nat) => j < |inputs| && Score(m, n, inputs, targets, j) == Ok(true);
    if i == |inputs| {
      assert Among(p, i, |inputs|) == {};
    } else {
      CountIsHits(m, n, inputs, targets, i + 1);
      AmongStep(p, i, |inputs|);
    }
  }

  /** `Test(inputs, targets)`: the accuracy loop on the network as it is. The
      inputs, targets and outputs it writes to the console are not modelled. */
  function Test(m: Maths, n: Network, inputs: seq<Vector>, targets: seq<Vector>): (r: Result<nat>)
    requires Sound(m) && Shaped(n)
    ensures r.Ok? ==> r.value == |Hits(m, n, inputs, targets, 0)| && r.value <= |inputs|
  {
    var r := CountFrom(m, n, inputs, targets, 0);
    if r.Ok? then CountIsHits(m, n, inputs, targets, 0); r else r
  }

  // ----- Learning an epoch -----

  /** `Learn(input, target, rate)` as the step of the example loop. The loop
      only ever hands it the shaped networks `Learned` produces, so the
      guard's other branch is never taken. */
  function LearnStep(m: Maths, rate: real): (step: (Network, Vector, Vector) -> Result<Network>)
    requires Sound(m)
  {
    (n: Network, input: Vector, target: Vector) =>
      if Shaped(n) then Learned(m, n, input, target, rate) else Err(SizeMismatch)
  }

  /** The learning loop of one epoch: `Learn(inputs[i], targets[i], rate)` for
      every example in order, the first exception ending the epoch. The
      network is changed in place, so the examples learned before the
      exception stay learned. */
  function LearnAll(m: Maths, n: Network, inputs: seq<Vector>, targets: seq<Vector>, rate: real)
    : (r: (Network, Outcome))
    requires Sound(m) && Shaped(n)
  {
    Loops.Walk(LearnStep(m, rate), n, inputs, targets, 0)
  }

  /** An epoch of learning fails exactly when some example has no target or
      cannot be costed on the network it starts from: learning moves
      parameters only, so the starting network decides. What it leaves,
      whether it failed or not, has the starting network's sizes and tags. */
  lemma LearnAllOk(m: Maths, n: Network, inputs: seq<Vector>, targets: seq<Vector>, rate: real)
    requires Sound(m) && Shaped(n)
    ensures LearnAll(m, n, inputs, targets, rate).1.Ok? <==>
      && (|inputs| == 0 || |inputs| <= |targets|)
      && forall j :: 0 <= j < |inputs| ==> Loss(m, n, inputs[j], targets[j]).Ok?
    ensures var after := LearnAll(m, n, inputs, targets, rate).0;
      Shaped(after) && SameFrames(n, after)
  {
    var step := LearnStep(m, rate);
    var inv := (x: Network) => Shaped(x) && SameFrames(n, x);
    var ok := (u: Vector, v: Vector) => Loss(m, n, u, v).Ok?;
    forall x, u, v | inv(x)
      ensures (step(x, u, v).Ok? <==> ok(u, v))
      ensures step(x, u, v).Ok? ==> inv(step(x, u, v).value)
    {
      LossShapeOnly(m, n, x, u, v);
    }
    Loops.WalkOk(step, n, inputs, targets, 0, inv, ok);
  }

  /** An epoch of learning that fails keeps what it learned: the network it
      leaves is the one learning the examples before the failing one leaves,
      and the failing example has no target or cannot be costed. */
  lemma LearnAllKeepsLearned(m: Maths, n: Network, inputs: seq<Vector>, targets: seq<Vector>, rate: real)
    requires Sound(m) && Shaped(n)
    ensures var r := LearnAll(m, n, inputs, targets, rate);
      r.1.Err? ==> exists j ::
        && 0 <= j < |inputs|
        && LearnAll(m, n, inputs[..j], targets, rate) == (r.0, Done)
        && (j >= |targets| || Loss(m, n, inputs[j], targets[j]).Err?)
  {
    var step := LearnStep(m, rate);
    var r := LearnAll(m, n, inputs, targets, rate);
    if r.1.Err? {
      LearnAllOk(m, n, inputs, targets, rate);
      Loops.WalkStops(step, n, inputs, targets, 0);
      var j :| 0 <= j < |inputs|
        && Loops.Walk(step, n, inputs[..j], targets, 0) == (r.0, Done)
        && (j >= |targets| || step(r.0, inputs[j], targets[j]).Err?);
      if j < |targets| {
        LossShapeOnly(m, n, r.0, inputs[j], targets[j]);
      }
    }
  }

  /** With a zero rate an epoch of learning leaves the network as it was. */
  lemma LearnAllAtZeroRate(m: Maths, n: Network, inputs: seq<Vector>, targets: seq<Vector>)
    requires Sound(m) && Shaped(n)
    ensures LearnAll(m, n, inputs, targets, 0.0).0 == n
  {
    var step := LearnStep(m, 0.0);
    forall u, v | step(n, u, v).Ok? ensures step(n, u, v).value == n {
      LearnedAtZeroRate(m, n, u, v);
    }
    Loops.WalkFixed(step, n, inputs, targets, 0);
  }

  // ----- Training -----

  /** One epoch: the learning loop, then the accuracy loop on the network it
      learned. The accuracy loop only reads the network, so an exception in
      it still leaves the learned network. */
  function Epoch(m: Maths, n: Network, inputs: seq<Vector>, targets: seq<Vector>, rate: real)
    : (r: (Network, Result<nat>))
    requires Sound(m) && Shaped(n)
    ensures Shaped(r.0) && SameFrames(n, r.0)
    ensures r.0 == LearnAll(m, n, inputs, targets, rate).0
    ensures LearnAll(m, n, inputs, targets, rate).1.Err? ==> r.1.Err?
    ensures r.1.Ok? ==> r.1.value <= |inputs| && Test(m, r.0, inputs, targets) == r.1
  {
    LearnAllOk(m, n, inputs, targets, rate);
    var (learned, outcome) := LearnAll(m, n, inputs, targets, rate);
    if outcome.Err? then (learned, Err(outcome.error))
    else (learned, Test(m, learned, inputs, targets))
  }

  /** The epoch as the step of the epoch loop; as with `LearnStep`, the guard
      always holds where the loop uses it. */
  function EpochStep(m: Maths, inputs: seq<Vector>, targets: seq<Vector>, rate: real)
    : (step: Network -> (Network, Result<nat>))
    requires Sound(m)
  {
    (n: Network) => if Shaped(n) then Epoch(m, n, inputs, targets, rate) else (n, Err(SizeMismatch))
  }

  /** `Train(inputs, targets, epochs, learningRate)`: `epochs` rounds of an
      epoch, each on the network the one before left, with the correct count
      of every epoch; a count below one runs no epoch at all. The network the
      call leaves, also after an exception, has the sizes and tags it had. */
  function Train(m: Maths, n: Network, inputs: seq<Vector>, targets: seq<Vector>, epochs: int, rate: real)
    : (r: (Network, Result<seq<nat>>))
    requires Sound(m) && Shaped(n)
    ensures epochs <= 0 ==> r == (n, Ok([]))
    ensures r.1.Ok? ==> |r.1.value| == if epochs < 0 then 0 else epochs
    ensures Shaped(r.0) && SameFrames(n, r.0)
    ensures r.1.Ok? ==> forall e :: 0 <= e < |r.1.value| ==> r.1.value[e] <= |inputs|
  {
    var step := EpochStep(m, inputs, targets, rate);
    var k := if epochs < 0 then 0 else epochs;
    Loops.IterateKeeps(step, n, k, (x: Network) => Shaped(x) && SameFrames(n, x), (c: nat) => c <= |inputs|);
    Loops.Iterate(step, n, k)
  }

  /** The count of the last epoch is what `Test` reports on the trained
      network with the same examples. */
  lemma TrainLastCountIsTest(m: Maths, n: Network, inputs: seq<Vector>, targets: seq<Vector>, epochs: nat, rate: real)
    requires Sound(m) && Shaped(n) && epochs > 0
    requires Train(m, n, inputs, targets, epochs, rate).1.Ok?
    ensures var t := Train(m, n, inputs, targets, epochs, rate);
      Test(m, t.0, inputs, targets) == Ok(t.1.value[epochs - 1])
  {
    var step := EpochStep(m, inputs, targets, rate);
    Loops.IterateLast(step, n, epochs, (x: Network, c: nat) => Shaped(x) && Test(m, x, inputs, targets) == Ok(c));
  }

  /** Training for `a + b` epochs is training for `a` and then for `b` more
      on the network the first `a` left: a failure in the first `a` epochs is
      the failure of the whole, with the network it left, and otherwise the
      counts follow one another. */
  lemma TrainComposes(m: Maths, n: Network, inputs: seq<Vector>, targets: seq<Vector>, a: nat, b: nat, rate: real)
    requires Sound(m) && Shaped(n)
    ensures Train(m, n, inputs, targets, a, rate).1.Err? ==>
      Train(m, n, inputs, targets, a + b, rate) == Train(m, n, inputs, targets, a, rate)
    ensures Train(m, n, inputs, targets, a, rate).1.Ok? ==>
      var first := Train(m, n, inputs, targets, a, rate);
      var more := Train(m, first.0, inputs, targets, b, rate);
      Train(m, n, inputs, targets, a + b, rate) ==
        (more.0, if more.1.Err? then Err(more.1.error) else Ok(first.1.value + more.1.value))
  {
    var step := EpochStep(m, inputs, targets, rate);
    Loops.IterateComposes(step, n, a, b);
  }

  /** With a zero rate, training leaves the network as it was, also when it
      fails, and every epoch reports the count `Test` reports on it. */
  lemma TrainAtZeroRate(m: Maths, n: Network, inputs: seq<Vector>, targets: seq<Vector>, epochs: nat)
    requires Sound(m) && Shaped(n)
    ensures Train(m, n, inputs, targets, epochs, 0.0).0 == n
    ensures var t := Train(m, n, inputs, targets, epochs, 0.0);
      t.1.Ok? ==> forall e :: 0 <= e < epochs ==> Test(m, n, inputs, targets) == Ok(t.1.value[e])
  {
    var step := EpochStep(m, inputs, targets, 0.0);
    LearnAllAtZeroRate(m, n, inputs, targets);
    assert step(n).0 == n;
    Loops.IterateKeeps(step, n, epochs, (x: Network) => x == n, (c: nat) => Test(m, n, inputs, targets) == Ok(c));
  }
}
