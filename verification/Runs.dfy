/** Runs of a transition relation. */
module Runs {

  ghost predicate IsRun<S>(step: (S, S) -> bool, run: seq<S>) {
    forall i :: 0 < i < |run| ==> step(run[i - 1], run[i])
  }

  lemma RunSnoc<S>(step: (S, S) -> bool, run: seq<S>, s: S)
    requires IsRun(step, run) && (run != [] ==> step(run[|run| - 1], s))
    ensures IsRun(step, run + [s])
  {
  }

  /** What every step keeps holds all along a run. */
  lemma {:induction false} Invariant<S(!new)>(step: (S, S) -> bool, keeps: S -> bool, run: seq<S>, i: nat)
    requires IsRun(step, run) && i < |run| && keeps(run[0])
    requires forall s, t :: step(s, t) && keeps(s) ==> keeps(t)
    ensures keeps(run[i])
  {
    if i > 0 {
      Invariant(step, keeps, run, i - 1);
      assert step(run[i - 1], run[i]);
    }
  }

  /** Processes one after the other: each may die anywhere in its run, and the next one
      comes to life in a state the one before it reached. */
  ghost predicate AreLives<S>(step: (S, S) -> bool, lives: seq<seq<S>>) {
    && (forall i :: 0 <= i < |lives| ==> lives[i] != [] && IsRun(step, lives[i]))
    && (forall i :: 0 < i < |lives| ==> lives[i][0] in lives[i - 1])
  }

  /** What every step keeps survives any number of deaths. */
  lemma {:induction false} LivesKeep<S(!new)>(step: (S, S) -> bool, keeps: S -> bool, lives: seq<seq<S>>,
                                              i: nat, k: nat)
    requires AreLives(step, lives) && i < |lives| && k < |lives[i]| && keeps(lives[0][0])
    requires forall s, t :: step(s, t) && keeps(s) ==> keeps(t)
    ensures keeps(lives[i][k])
  {
    if i > 0 {
      var cut: nat :| cut < |lives[i - 1]| && lives[i - 1][cut] == lives[i][0];
      LivesKeep(step, keeps, lives, i - 1, cut);
    }
    Invariant(step, keeps, lives[i], k);
  }
}
