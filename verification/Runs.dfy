/**
 Runs of a state machine: any sequence of its steps from the initial state. `next(s, step, t)` says that
 the step is enabled in s and leads to t.
*/
module Runs {
  ghost predicate TakesStep<S, A>(next: (S, A, S) -> bool, states: seq<S>, steps: seq<A>, i: int) {
    0 <= i < |steps| && i + 1 < |states| && next(states[i], steps[i], states[i + 1])
  }

  /** The states passed through when the steps are taken one after the other. */
  ghost predicate IsRun<S, A>(init: S, next: (S, A, S) -> bool, states: seq<S>, steps: seq<A>) {
    && |states| == |steps| + 1
    && states[0] == init
    && forall i | 0 <= i < |steps| :: TakesStep(next, states, steps, i)
  }

  /** What holds at first and is kept by every step holds in every state of every run. */
  lemma {:induction false} Always<S(!new), A(!new)>(
    init: S, next: (S, A, S) -> bool, inv: S -> bool, states: seq<S>, steps: seq<A>, i: nat)
    requires IsRun(init, next, states, steps) && i < |states|
    requires inv(init) && forall s, step, t :: inv(s) && next(s, step, t) ==> inv(t)
    ensures inv(states[i])
  {
    if i == 0 {
      assert states[0] == init;
    } else {
      Always(init, next, inv, states, steps, i - 1);
      assert TakesStep(next, states, steps, i - 1);
    }
  }

  /** The run with one more step. */
  lemma Extend<S, A>(init: S, next: (S, A, S) -> bool, states: seq<S>, steps: seq<A>, step: A, to: S)
    returns (states': seq<S>, steps': seq<A>)
    requires IsRun(init, next, states, steps) && next(states[|states| - 1], step, to)
    ensures IsRun(init, next, states', steps') && states'[|states'| - 1] == to
    ensures states' == states + [to] && steps' == steps + [step]
  {
    states', steps' := states + [to], steps + [step];
    forall i | 0 <= i < |steps'| ensures TakesStep(next, states', steps', i) {
      assert i < |steps| ==> TakesStep(next, states, steps, i);
    }
  }
}
