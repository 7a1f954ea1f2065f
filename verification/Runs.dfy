/** Runs of a state machine that is given by its step function: `next(s, step)` is the state
    after the step, or None where the step cannot be taken. */
module Runs {
  import opened Types

  ghost predicate IsRun<S, T>(next: (S, T) -> Option<S>, s0: S, steps: seq<T>, s: S)
    decreases |steps|
  {
    if steps == [] then s == s0
    else next(s0, steps[0]).Some? && IsRun(next, next(s0, steps[0]).value, steps[1..], s)
  }

  lemma {:induction false} RunConcat<S, T>(next: (S, T) -> Option<S>, s0: S, before: seq<T>, s: S, after: seq<T>, t: S)
    requires IsRun(next, s0, before, s) && IsRun(next, s, after, t)
    ensures IsRun(next, s0, before + after, t)
    decreases |before|
  {
    if before == [] {
      assert before + after == after;
    } else {
      assert (before + after)[1..] == before[1..] + after;
      RunConcat(next, next(s0, before[0]).value, before[1..], s, after, t);
    }
  }

  /** One more step at the end of a run. */
  lemma Extend<S, T>(next: (S, T) -> Option<S>, s0: S, before: seq<T>, s: S, step: T) returns (steps: seq<T>, t: S)
    requires IsRun(next, s0, before, s) && next(s, step).Some?
    ensures IsRun(next, s0, steps, t) && Some(t) == next(s, step) && steps == before + [step]
  {
    t := next(s, step).value;
    assert IsRun(next, s, [step], t) by {
      assert [step][1..] == [];
    }
    RunConcat(next, s0, before, s, [step], t);
    steps := before + [step];
  }
}
