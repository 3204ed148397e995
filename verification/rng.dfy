/** Random initialisation. The engine draws `Random.NextDouble()` values and
    maps each to `d * 2 - 1`. The model takes the draws as an unbounded stream;
    every random allocation consumes a prefix and hands the rest on. */
module Rng {

  /** Successive results of `NextDouble()`. */
  type Stream = nat -> real

  /** The promise of `NextDouble()`: every draw lies in [0, 1). */
  ghost predicate Unit(s: Stream)
  {
    forall i: nat :: 0.0 <= s(i) < 1.0
  }

  /** The stream after its first `n` draws are used up. */
  function Skip(s: Stream, n: nat): (t: Stream)
    ensures forall i: nat :: t(i) == s(i + n)
    ensures Unit(s) ==> Unit(t)
  {
    (i: nat) => s(i + n)
  }

  /** `size` successive values `NextDouble() * 2 - 1`. */
  function Draws(s: Stream, size: nat): (v: seq<real>)
    ensures |v| == size
    ensures Unit(s) ==> forall i :: 0 <= i < size ==> -1.0 <= v[i] < 1.0
  {
    seq(size, i requires 0 <= i < size => s(i) * 2.0 - 1.0)
  }
}
