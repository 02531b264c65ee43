/** Runs of a transition system, and the induction every protocol module uses. */
module Runs {
  /** A finite run: it starts in an initial state and every adjacent pair is a step. */
  ghost predicate IsRun<S(!new)>(trace: seq<S>, init: S -> bool, next: (S, S) -> bool) {
    && trace != []
    && init(trace[0])
    && forall i :: 0 < i < |trace| ==> next(trace[i - 1], trace[i])
  }

  lemma {:induction false} InvariantOfRun<S(!new)>(
      trace: seq<S>, init: S -> bool, next: (S, S) -> bool, inv: S -> bool)
    requires IsRun(trace, init, next)
    requires forall s :: init(s) ==> inv(s)
    requires forall s, s' :: inv(s) && next(s, s') ==> inv(s')
    ensures forall i :: 0 <= i < |trace| ==> inv(trace[i])
    decreases |trace|
  {
    if |trace| > 1 {
      var prefix := trace[..|trace| - 1];
      InvariantOfRun(prefix, init, next, inv);
      assert inv(prefix[|prefix| - 1]);
      assert next(trace[|trace| - 2], trace[|trace| - 1]);
      forall i | 0 <= i < |trace| ensures inv(trace[i]) {
        if i < |prefix| { assert inv(prefix[i]); }
      }
    }
  }

  ghost predicate IsPath<S(!new)>(path: seq<S>, next: (S, S) -> bool) {
    path != [] && forall i :: 0 < i < |path| ==> next(path[i - 1], path[i])
  }

  /** Some steps lead from one state to another. */
  ghost predicate Reaches<S(!new)>(s: S, t: S, next: (S, S) -> bool) {
    exists path :: IsPath(path, next) && path[0] == s && path[|path| - 1] == t
  }

  lemma ReachesItself<S(!new)>(s: S, next: (S, S) -> bool)
    ensures Reaches(s, s, next)
  {
    assert IsPath([s], next);
  }

  lemma ReachesNext<S(!new)>(s: S, m: S, t: S, next: (S, S) -> bool)
    requires next(s, m) && Reaches(m, t, next)
    ensures Reaches(s, t, next)
  {
    var path :| IsPath(path, next) && path[0] == m && path[|path| - 1] == t;
    assert IsPath([s] + path, next);
  }
}
