/** Running a list of steps, one after the other. */
module Folds {
  function Fold<S, T>(f: (S, T) -> S, s: S, steps: seq<T>): S {
    if steps == [] then s else f(Fold(f, s, steps[..|steps| - 1]), steps[|steps| - 1])
  }

  lemma FoldAppend<S, T>(f: (S, T) -> S, s: S, steps: seq<T>, step: T)
    ensures Fold(f, s, steps + [step]) == f(Fold(f, s, steps), step)
  {
    assert (steps + [step])[..|steps|] == steps;
  }

  lemma {:induction false} FoldConcat<S, T>(f: (S, T) -> S, s: S, steps: seq<T>, rest: seq<T>)
    ensures Fold(f, s, steps + rest) == Fold(f, Fold(f, s, steps), rest)
  {
    if rest == [] {
      assert steps + rest == steps;
    } else {
      var n := |rest| - 1;
      FoldConcat(f, s, steps, rest[..n]);
      assert steps + rest == steps + rest[..n] + [rest[n]];
      FoldAppend(f, s, steps + rest[..n], rest[n]);
    }
  }
}
