/** Transition systems over arbitrary states: runs, reachability, inductive invariants,
    and the two progress arguments every two-process model below uses. */
module Systems {

  datatype System<!S(!new)> = System(
    init: S -> bool,
    next: (S, S) -> bool,
    inv: S -> bool,
    done: S -> bool,
    rank: S -> nat)

  ghost predicate IsRun<S(!new)>(sys: System<S>, run: seq<S>) {
    |run| > 0 && forall i :: 0 < i < |run| ==> sys.next(run[i - 1], run[i])
  }

  ghost predicate Reachable<S(!new)>(sys: System<S>, s: S) {
    exists run :: IsRun(sys, run) && sys.init(run[0]) && run[|run| - 1] == s
  }

  ghost predicate Inductive<S(!new)>(sys: System<S>) {
    && (forall s :: sys.init(s) ==> sys.inv(s))
    && (forall s, s' :: sys.inv(s) && sys.next(s, s') ==> sys.inv(s'))
  }

  /** Wherever the system is not finished, some step brings it closer to the end. */
  ghost predicate Advances<S(!new)>(sys: System<S>) {
    forall s :: sys.inv(s) && !sys.done(s) ==> exists s' :: sys.next(s, s') && sys.rank(s') < sys.rank(s)
  }

  /** No step moves away from the end. */
  ghost predicate NeverRegresses<S(!new)>(sys: System<S>) {
    forall s, s' :: sys.inv(s) && sys.next(s, s') ==> sys.rank(s') <= sys.rank(s)
  }

  lemma FrontIsRun<S(!new)>(sys: System<S>, run: seq<S>)
    requires IsRun(sys, run) && |run| > 1
    ensures IsRun(sys, run[..|run| - 1])
  {
    var front := run[..|run| - 1];
    forall i | 0 < i < |front| ensures sys.next(front[i - 1], front[i]) {
      assert sys.next(run[i - 1], run[i]);
    }
  }

  lemma {:induction false} InvariantAlongRun<S(!new)>(sys: System<S>, run: seq<S>)
    requires IsRun(sys, run) && sys.inv(run[0])
    requires forall s, s' :: sys.inv(s) && sys.next(s, s') ==> sys.inv(s')
    ensures forall i :: 0 <= i < |run| ==> sys.inv(run[i])
  {
    if |run| > 1 {
      var front := run[..|run| - 1];
      FrontIsRun(sys, run);
      InvariantAlongRun(sys, front);
      assert sys.inv(front[|front| - 1]);
      assert sys.next(run[|run| - 2], run[|run| - 1]);
      forall i | 0 <= i < |run| ensures sys.inv(run[i]) {
        if i < |front| { assert run[i] == front[i]; }
      }
    }
  }

  lemma InvariantWhereverReachable<S(!new)>(sys: System<S>, s: S)
    requires Inductive(sys) && Reachable(sys, s)
    ensures sys.inv(s)
  {
    var run :| IsRun(sys, run) && sys.init(run[0]) && run[|run| - 1] == s;
    InvariantAlongRun(sys, run);
  }

  lemma ReachableStep<S(!new)>(sys: System<S>, s: S, s': S)
    requires Reachable(sys, s) && sys.next(s, s')
    ensures Reachable(sys, s')
  {
    var run :| IsRun(sys, run) && sys.init(run[0]) && run[|run| - 1] == s;
    var longer := run + [s'];
    forall i | 0 < i < |longer| ensures sys.next(longer[i - 1], longer[i]) {
      if i < |run| { assert sys.next(run[i - 1], run[i]); }
    }
    assert longer[|longer| - 1] == s';
  }

  lemma SameRun<S(!new)>(a: System<S>, b: System<S>, run: seq<S>)
    requires a.next == b.next && IsRun(a, run)
    ensures IsRun(b, run)
  {
    forall i | 0 < i < |run| ensures b.next(run[i - 1], run[i]) { assert a.next(run[i - 1], run[i]); }
  }

  lemma SameReachable<S(!new)>(a: System<S>, b: System<S>, s: S)
    requires a.next == b.next && a.init == b.init && Reachable(a, s)
    ensures Reachable(b, s)
  {
    var run :| IsRun(a, run) && a.init(run[0]) && run[|run| - 1] == s;
    SameRun(a, b, run);
  }

  lemma Started<S(!new)>(sys: System<S>, s: S)
    requires sys.init(s)
    ensures Reachable(sys, s)
  {
    assert IsRun(sys, [s]);
  }

  lemma Append<S(!new)>(sys: System<S>, run: seq<S>, s: S)
    requires IsRun(sys, run) && sys.next(run[|run| - 1], s)
    ensures IsRun(sys, run + [s])
  {
    var longer := run + [s];
    forall i | 0 < i < |longer| ensures sys.next(longer[i - 1], longer[i]) {
      if i < |run| { assert sys.next(run[i - 1], run[i]); }
    }
  }

  lemma Prepend<S(!new)>(sys: System<S>, s: S, run: seq<S>)
    requires IsRun(sys, run) && sys.next(s, run[0])
    ensures IsRun(sys, [s] + run) && ([s] + run)[|run|] == run[|run| - 1]
  {
    var longer := [s] + run;
    forall i | 0 < i < |longer| ensures sys.next(longer[i - 1], longer[i]) {
      if i > 1 { assert longer[i - 1] == run[i - 2] && longer[i] == run[i - 1]; }
    }
  }

  /** From every reachable state some schedule brings all processes to their end: no reachable
      deadlock, and no reachable state from which a process is lost for good. */
  lemma {:induction false} CanFinish<S(!new)>(sys: System<S>, s: S) returns (run: seq<S>)
    requires Inductive(sys) && Advances(sys) && sys.inv(s)
    ensures IsRun(sys, run) && run[0] == s && sys.done(run[|run| - 1])
    decreases sys.rank(s)
  {
    if sys.done(s) {
      run := [s];
    } else {
      var s' :| sys.next(s, s') && sys.rank(s') < sys.rank(s);
      var rest := CanFinish(sys, s');
      run := [s] + rest;
      Prepend(sys, s, rest);
    }
  }

  /** The number of steps of a run that lower the rank. */
  ghost function Progress<S(!new)>(sys: System<S>, run: seq<S>): nat
  {
    if |run| < 2 then 0
    else
      Progress(sys, run[..|run| - 1]) +
      (if sys.rank(run[|run| - 1]) < sys.rank(run[|run| - 2]) then 1 else 0)
  }

  /** Every run does a bounded amount of work: all its other steps keep the rank. */
  lemma {:induction false} ProgressIsBounded<S(!new)>(sys: System<S>, run: seq<S>)
    requires Inductive(sys) && NeverRegresses(sys) && IsRun(sys, run) && sys.inv(run[0])
    ensures Progress(sys, run) + sys.rank(run[|run| - 1]) <= sys.rank(run[0])
  {
    if |run| > 1 {
      var front := run[..|run| - 1];
      FrontIsRun(sys, run);
      ProgressIsBounded(sys, front);
      InvariantAlongRun(sys, front);
      assert sys.next(run[|run| - 2], run[|run| - 1]);
      assert sys.inv(front[|front| - 1]);
    }
  }

  // ---------- infinite runs ----------

  /** Natural numbers cannot fall for ever: some value is never undercut later. */
  lemma {:induction false} NeverUndercut(ranks: nat -> nat, i: nat) returns (low: nat)
    ensures low >= i && forall j: nat :: j >= low ==> ranks(j) >= ranks(low)
    decreases ranks(i)
  {
    if j: nat :| j >= i && ranks(j) < ranks(i) {
      low := NeverUndercut(ranks, j);
    } else {
      low := i;
    }
  }

  ghost predicate ComesToRest<S(!new)>(states: nat -> S, acts: nat -> bool, quiet: S -> bool, i: nat) {
    exists j: nat :: j >= i && (acts(j) || quiet(states(j)))
  }

  /** What holds of a process from some moment on: once quiet it stays so, each of its own actions makes
      it quiet or brings it closer to that, and it is left out only while it is quiet. */
  ghost predicate Calms<S(!new)>(states: nat -> S, acts: nat -> bool, quiet: S -> bool, distance: S -> nat, low: nat) {
    && (forall i: nat :: i >= low && quiet(states(i)) ==> quiet(states(i + 1)))
    && (forall i: nat :: i >= low && !quiet(states(i)) ==>
          if acts(i) then quiet(states(i + 1)) || distance(states(i + 1)) < distance(states(i))
          else distance(states(i + 1)) <= distance(states(i)))
    && (forall i: nat :: i >= low ==> ComesToRest(states, acts, quiet, i))
  }

  lemma {:induction false} QuietBy<S(!new)>(
      states: nat -> S, acts: nat -> bool, quiet: S -> bool, distance: S -> nat, low: nat, i: nat, k: nat)
      returns (j: nat)
    requires Calms(states, acts, quiet, distance, low)
    requires low <= i <= k && (acts(k) || quiet(states(k)))
    ensures j >= i && quiet(states(j))
    decreases distance(states(i)), k - i
  {
    if quiet(states(i)) {
      j := i;
    } else if acts(i) && quiet(states(i + 1)) {
      j := i + 1;
    } else if acts(i) {
      assert ComesToRest(states, acts, quiet, i + 1);
      var next: nat :| next >= i + 1 && (acts(next) || quiet(states(next)));
      j := QuietBy(states, acts, quiet, distance, low, i + 1, next);
    } else {
      j := QuietBy(states, acts, quiet, distance, low, i + 1, k);
    }
  }

  lemma {:induction false} QuietForEver<S(!new)>(
      states: nat -> S, acts: nat -> bool, quiet: S -> bool, distance: S -> nat, low: nat, i: nat, j: nat)
    requires Calms(states, acts, quiet, distance, low) && low <= i <= j && quiet(states(i))
    ensures quiet(states(j))
  {
    if i < j { QuietForEver(states, acts, quiet, distance, low, i, j - 1); }
  }

  lemma BecomesQuiet<S(!new)>(
      states: nat -> S, acts: nat -> bool, quiet: S -> bool, distance: S -> nat, low: nat, i: nat)
      returns (j: nat)
    requires Calms(states, acts, quiet, distance, low) && low <= i
    ensures j >= i && quiet(states(j))
  {
    assert ComesToRest(states, acts, quiet, i);
    var k: nat :| k >= i && (acts(k) || quiet(states(k)));
    j := QuietBy(states, acts, quiet, distance, low, i, k);
  }
}
