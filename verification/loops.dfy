/** The two loops of the float network's training, written once for any
    step: the walk over the examples of one epoch, and the repetition of
    epochs. Both mutate the network in place, so a loop that stops on an
    exception still leaves the state its finished rounds reached. Their
    properties hold whatever the step does. */
module Loops {
  import opened Wrappers

  // ----- The walk over the examples -----

  /** `for (i = start; i < inputs.Length; i++) s = step(s, inputs[i], targets[i])`:
      the target array is indexed with the input's index, and the first
      exception ends the walk. A step that fails leaves its state as it found
      it, so the walk ends in the state the examples before the failing one
      left. */
  function Walk<S, E>(step: (S, E, E) -> Result<S>, s: S, inputs: seq<E>, targets: seq<E>, i: nat)
    : (r: (S, Outcome))
    requires i <= |inputs|
    ensures r.1.Ok? ==> i == |inputs| || |inputs| <= |targets|
    ensures r.1.Err? ==> i < |inputs|
    decreases |inputs| - i
  {
    if i == |inputs| then (s, Done)
    else if i >= |targets| then (s, Err(IndexOutOfRange))
    else
      match step(s, inputs[i], targets[i])
      case Err(e) => (s, Err(e))
      case Ok(next) => Walk(step, next, inputs, targets, i + 1)
  }

  /** When the step keeps an invariant, and succeeds on a state that keeps it
      exactly when the example satisfies `ok`, the walk succeeds exactly when
      every remaining example has a target and satisfies `ok`, and the state
      it ends in keeps the invariant, whether or not it succeeded. */
  lemma {:induction false} WalkOk<S, E>(step: (S, E, E) -> Result<S>, s: S, inputs: seq<E>, targets: seq<E>, i: nat,
                                        inv: S -> bool, ok: (E, E) -> bool)
    requires i <= |inputs| && inv(s)
    requires forall x, u, v :: inv(x) ==> (step(x, u, v).Ok? <==> ok(u, v))
    requires forall x, u, v :: inv(x) && step(x, u, v).Ok? ==> inv(step(x, u, v).value)
    ensures Walk(step, s, inputs, targets, i).1.Ok? <==>
      && (i == |inputs| || |inputs| <= |targets|)
      && forall j :: i <= j < |inputs| ==> ok(inputs[j], targets[j])
    ensures inv(Walk(step, s, inputs, targets, i).0)
    decreases |inputs| - i
  {
    if i < |inputs| && i < |targets| {
      var next := step(s, inputs[i], targets[i]);
      if next.Ok? {
        WalkOk(step, next.value, inputs, targets, i + 1, inv, ok);
      }
    }
  }

  /** A walk that fails ends in the state a successful walk over the examples
      before the failing one ends in, and the failing example has no target
      or a step that fails on that state. */
  lemma {:induction false} WalkStops<S, E>(step: (S, E, E) -> Result<S>, s: S, inputs: seq<E>, targets: seq<E>, i: nat)
    requires i <= |inputs|
    ensures var r := Walk(step, s, inputs, targets, i);
      r.1.Err? ==> exists j ::
        && i <= j < |inputs|
        && Walk(step, s, inputs[..j], targets, i) == (r.0, Done)
        && (j >= |targets| || step(r.0, inputs[j], targets[j]).Err?)
    decreases |inputs| - i
  {
    var r := Walk(step, s, inputs, targets, i);
    if r.1.Err? {
      assert Walk(step, s, inputs[..i], targets, i) == (s, Done);
      if i < |targets| && step(s, inputs[i], targets[i]).Ok? {
        var next := step(s, inputs[i], targets[i]).value;
        WalkStops(step, next, inputs, targets, i + 1);
        var j :| i + 1 <= j < |inputs|
          && Walk(step, next, inputs[..j], targets, i + 1) == (r.0, Done)
          && (j >= |targets| || step(r.0, inputs[j], targets[j]).Err?);
        assert inputs[..j][i] == inputs[i];
        assert Walk(step, s, inputs[..j], targets, i) == Walk(step, next, inputs[..j], targets, i + 1);
      }
    }
  }

  /** A state every example leaves alone is where the walk ends. */
  lemma {:induction false} WalkFixed<S, E>(step: (S, E, E) -> Result<S>, s: S, inputs: seq<E>, targets: seq<E>, i: nat)
    requires i <= |inputs|
    requires forall u, v :: step(s, u, v).Ok? ==> step(s, u, v).value == s
    ensures Walk(step, s, inputs, targets, i).0 == s
    decreases |inputs| - i
  {
    if i < |inputs| && i < |targets| {
      WalkFixed(step, s, inputs, targets, i + 1);
    }
  }

  // ----- The repetition of epochs -----

  /** `k` rounds of `step`, each on the state the one before left, collecting
      the number every round reports. The first exception ends the loop in
      the state the failing round left. */
  function Iterate<S>(step: S -> (S, Result<nat>), s: S, k: nat): (r: (S, Result<seq<nat>>))
    ensures r.1.Ok? ==> |r.1.value| == k
    decreases k
  {
    if k == 0 then (s, Ok([]))
    else
      var first := step(s);
      if first.1.Err? then (first.0, Err(first.1.error))
      else
        var rest := Iterate(step, first.0, k - 1);
        (rest.0, if rest.1.Err? then Err(rest.1.error) else Ok([first.1.value] + rest.1.value))
  }

  /** Running `b` more rounds after the outcome `r` of earlier ones. */
  function AndThen<S>(step: S -> (S, Result<nat>), r: (S, Result<seq<nat>>), b: nat): (t: (S, Result<seq<nat>>))
    ensures r.1.Err? ==> t == r
  {
    if r.1.Err? then r
    else
      var second := Iterate(step, r.0, b);
      (second.0, if second.1.Err? then Err(second.1.error) else Ok(r.1.value + second.1.value))
  }

  /** `a + b` rounds are `a` rounds and then `b` more, the reports following
      one another. */
  lemma {:induction false} IterateComposes<S>(step: S -> (S, Result<nat>), s: S, a: nat, b: nat)
    ensures Iterate(step, s, a + b) == AndThen(step, Iterate(step, s, a), b)
    decreases a
  {
    if a == 0 {
      assert a + b == b;
      var r := Iterate(step, s, b);
      if r.1.Ok? {
        assert [] + r.1.value == r.1.value;
      }
    } else {
      var e := step(s);
      if e.1.Ok? {
        IterateComposes(step, e.0, a - 1, b);
        assert a + b - 1 == a - 1 + b;
        var f := Iterate(step, e.0, a - 1);
        if f.1.Ok? {
          var g := Iterate(step, f.0, b);
          if g.1.Ok? {
            assert [e.1.value] + (f.1.value + g.1.value) == ([e.1.value] + f.1.value) + g.1.value;
          }
        }
      }
    }
  }

  /** An invariant every round keeps, failing or not, holds of the state the
      loop ends in, and a property every round's report has holds of every
      report. */
  lemma {:induction false} IterateKeeps<S>(step: S -> (S, Result<nat>), s: S, k: nat, inv: S -> bool, good: nat -> bool)
    requires inv(s)
    requires forall x :: inv(x) ==> inv(step(x).0)
    requires forall x :: inv(x) && step(x).1.Ok? ==> good(step(x).1.value)
    ensures inv(Iterate(step, s, k).0)
    ensures Iterate(step, s, k).1.Ok? ==> forall e :: 0 <= e < k ==> good(Iterate(step, s, k).1.value[e])
    decreases k
  {
    if k > 0 {
      var first := step(s);
      if first.1.Ok? {
        IterateKeeps(step, first.0, k - 1, inv, good);
      }
    }
  }

  /** When every round that succeeds leaves a state and a report that satisfy
      `last`, so do the final state and the last report of rounds that
      succeed. */
  lemma {:induction false} IterateLast<S>(step: S -> (S, Result<nat>), s: S, k: nat, last: (S, nat) -> bool)
    requires k > 0
    requires forall x :: step(x).1.Ok? ==> last(step(x).0, step(x).1.value)
    ensures Iterate(step, s, k).1.Ok? ==> last(Iterate(step, s, k).0, Iterate(step, s, k).1.value[k - 1])
    decreases k
  {
    var first := step(s);
    if first.1.Ok? && k > 1 {
      IterateLast(step, first.0, k - 1, last);
    }
  }
}
