/** Runs of a transition system given by an initial predicate and a step relation. */
module Runs {

  /** A nonempty sequence of states that starts initially and follows the step relation. */
  ghost predicate IsRun<S(!new)>(init: S -> bool, next: (S, S) -> bool, run: seq<S>) {
    && |run| > 0
    && init(run[0])
    && forall i :: 0 < i < |run| ==> next(run[i - 1], run[i])
  }

  ghost predicate Reachable<S(!new)>(init: S -> bool, next: (S, S) -> bool, s: S) {
    exists run: seq<S> :: IsRun(init, next, run) && run[|run| - 1] == s
  }

  /** A predicate that holds initially and that every step keeps. */
  ghost predicate Inductive<S(!new)>(init: S -> bool, next: (S, S) -> bool, inv: S -> bool) {
    && (forall s :: init(s) ==> inv(s))
    && (forall s, s' :: inv(s) && next(s, s') ==> inv(s'))
  }

  /** An invariant that holds initially and is kept by every step holds in every state of a run. */
  lemma {:induction false} Invariance<S(!new)>(init: S -> bool, next: (S, S) -> bool, inv: S -> bool, run: seq<S>)
    requires IsRun(init, next, run)
    requires Inductive(init, next, inv)
    ensures inv(run[|run| - 1])
  {
    if |run| > 1 {
      var prefix := run[..|run| - 1];
      Invariance(init, next, inv, prefix);
      assert next(run[|run| - 2], run[|run| - 1]);
    }
  }

  lemma ReachableInvariant<S(!new)>(init: S -> bool, next: (S, S) -> bool, inv: S -> bool, s: S)
    requires Reachable(init, next, s)
    requires Inductive(init, next, inv)
    ensures inv(s)
  {
    var run :| IsRun(init, next, run) && run[|run| - 1] == s;
    Invariance(init, next, inv, run);
  }

  lemma ReachableInit<S(!new)>(init: S -> bool, next: (S, S) -> bool, s: S)
    requires init(s)
    ensures Reachable(init, next, s)
  {
    assert IsRun(init, next, [s]);
  }

  lemma ReachableStep<S(!new)>(init: S -> bool, next: (S, S) -> bool, s: S, s': S)
    requires Reachable(init, next, s)
    requires next(s, s')
    ensures Reachable(init, next, s')
  {
    var run :| IsRun(init, next, run) && run[|run| - 1] == s;
    var longer := run + [s'];
    assert IsRun(init, next, longer);
  }
}
