/** Runs of a state machine, and what every step keeping an invariant says about them. */
module Runs {

  /** Every state of the run follows from the one before by a step. */
  ghost predicate IsRun<S>(next: (S, S) -> bool, run: seq<S>) {
    run != [] && forall i :: 0 < i < |run| ==> next(run[i - 1], run[i])
  }

  /** Some run from an initial state ends in `s`. */
  ghost predicate Reachable<S(!new)>(init: S -> bool, next: (S, S) -> bool, s: S) {
    exists run :: IsRun(next, run) && init(run[0]) && run[|run| - 1] == s
  }

  lemma {:induction false} RunKeeps<S>(next: (S, S) -> bool, inv: S -> bool, run: seq<S>, i: nat)
    requires IsRun(next, run) && inv(run[0]) && i < |run|
    requires forall a, b :: inv(a) && next(a, b) ==> inv(b)
    ensures inv(run[i])
    decreases i
  {
    if i > 0 {
      RunKeeps(next, inv, run, i - 1);
      assert next(run[i - 1], run[i]);
    }
  }

  /** An invariant that holds initially and that every step keeps, holds in every reachable state. */
  lemma Invariant<S(!new)>(init: S -> bool, next: (S, S) -> bool, inv: S -> bool, s: S)
    requires Reachable(init, next, s)
    requires forall a :: init(a) ==> inv(a)
    requires forall a, b :: inv(a) && next(a, b) ==> inv(b)
    ensures inv(s)
  {
    var run :| IsRun(next, run) && init(run[0]) && run[|run| - 1] == s;
    RunKeeps(next, inv, run, |run| - 1);
  }
}
