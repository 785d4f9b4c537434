/** The machine that all five ping-pong media implement: two sides that hold the turn alternately
    and hand it over a fixed number of times. Only the holder may work on the shared medium. */
module Turns {
  import opened Systems

  datatype Side = Server | Client

  function Other(s: Side): Side {
    if s.Server? then Client else Server
  }

  datatype Turns = Turns(first: Side, passes: nat, total: nat)
  {
    function Holder(): Side {
      HolderAfter(first, passes)
    }
  }

  /** Whose turn it is after a number of hand-overs. */
  function HolderAfter(first: Side, passes: nat): Side {
    if passes % 2 == 0 then first else Other(first)
  }

  datatype Label = Stutter | Work(side: Side) | Pass(side: Side)

  ghost predicate Does(t: Turns, l: Label, t': Turns) {
    match l
    case Stutter => t' == t
    case Work(side) => side == t.Holder() && t' == t
    case Pass(side) => side == t.Holder() && t.passes < t.total && t' == t.(passes := t.passes + 1)
  }

  lemma HolderByParity(t: Turns, k: nat)
    ensures t.passes == 2 * k ==> t.Holder() == t.first
    ensures t.passes == 2 * k + 1 ==> t.Holder() == Other(t.first)
  {}

  // ---------- media ----------

  /** A medium with its two programs. A schedule names the next action; an action that is blocked
      leaves the state alone. `effect` says what an action does to the medium and `actor` which of
      the two processes takes it; `abs` and `inv` are what the proofs need. */
  datatype Medium<!S(!new), !A(!new)> = Medium(
    step: (S, A) -> S,
    effect: (S, A) -> Label,
    actor: A -> Side,
    done: S -> bool,
    abs: S -> Turns,
    inv: S -> bool)

  ghost predicate Starts<S(!new), A(!new)>(m: Medium<S, A>, init: S -> bool, first: Side, total: nat) {
    forall s :: init(s) ==> m.inv(s) && m.abs(s) == Turns(first, 0, total)
  }

  /** Every action keeps the invariant and is a step of the turn machine by the process that takes it. */
  ghost predicate StepRefines<S(!new), A(!new)>(m: Medium<S, A>, s: S, a: A) {
    && m.inv(m.step(s, a))
    && Does(m.abs(s), m.effect(s, a), m.abs(m.step(s, a)))
    && (m.effect(s, a).Stutter? || m.effect(s, a).side == m.actor(a))
  }

  ghost predicate Implements<S(!new), A(!new)>(m: Medium<S, A>, init: S -> bool, first: Side, total: nat) {
    && Starts(m, init, first, total)
    && (forall s, a :: m.inv(s) ==> StepRefines(m, s, a))
    && (forall s :: m.inv(s) && m.done(s) ==> m.abs(s).passes == m.abs(s).total)
  }

  /** The state a schedule leads to. */
  ghost function Outcome<S(!new), A(!new)>(m: Medium<S, A>, s: S, schedule: seq<A>): S {
    if schedule == [] then s
    else m.step(Outcome(m, s, schedule[..|schedule| - 1]), schedule[|schedule| - 1])
  }

  /** What the i-th action of a schedule does to the medium. */
  ghost function LabelAt<S(!new), A(!new)>(m: Medium<S, A>, s: S, schedule: seq<A>, i: nat): Label
    requires i < |schedule|
  {
    m.effect(Outcome(m, s, schedule[..i]), schedule[i])
  }

  /** The processes that handed the turn over, in order. */
  ghost function HandOvers<S(!new), A(!new)>(m: Medium<S, A>, s: S, schedule: seq<A>): seq<Side> {
    if schedule == [] then []
    else
      var n := |schedule| - 1;
      HandOvers(m, s, schedule[..n]) + (if LabelAt(m, s, schedule, n).Pass? then [m.actor(schedule[n])] else [])
  }

  ghost predicate Alternates(sides: seq<Side>, first: Side) {
    forall i :: 0 <= i < |sides| ==> sides[i] == HolderAfter(first, i)
  }

  /** The i-th action leaves the medium alone or is taken by the process whose turn it is, counting
      the hand-overs before it. */
  ghost predicate InTurn<S(!new), A(!new)>(m: Medium<S, A>, first: Side, s: S, schedule: seq<A>, i: nat)
    requires i < |schedule|
  {
    LabelAt(m, s, schedule, i).Stutter? || m.actor(schedule[i]) == HolderAfter(first, |HandOvers(m, s, schedule[..i])|)
  }

  lemma OneMore<S(!new), A(!new)>(m: Medium<S, A>, s: S, schedule: seq<A>, i: nat)
    requires i < |schedule|
    ensures Outcome(m, s, schedule[..i + 1]) == m.step(Outcome(m, s, schedule[..i]), schedule[i])
  {
    assert schedule[..i + 1][..i] == schedule[..i];
  }

  /** Along a schedule the invariant holds and the turn machine counts the hand-overs. */
  lemma {:induction false} FollowsTurns<S(!new), A(!new)>(
      m: Medium<S, A>, init: S -> bool, first: Side, total: nat, s: S, schedule: seq<A>)
    requires Implements(m, init, first, total) && init(s)
    ensures m.inv(Outcome(m, s, schedule))
    ensures m.abs(Outcome(m, s, schedule)) == Turns(first, |HandOvers(m, s, schedule)|, total)
    ensures |HandOvers(m, s, schedule)| <= total
  {
    if schedule != [] {
      var front, a := schedule[..|schedule| - 1], schedule[|schedule| - 1];
      FollowsTurns(m, init, first, total, s, front);
      assert StepRefines(m, Outcome(m, s, front), a);
    }
  }

  lemma EveryActionInTurn<S(!new), A(!new)>(
      m: Medium<S, A>, init: S -> bool, first: Side, total: nat, s: S, schedule: seq<A>, i: nat)
    requires Implements(m, init, first, total) && init(s) && i < |schedule|
    ensures InTurn(m, first, s, schedule, i)
  {
    FollowsTurns(m, init, first, total, s, schedule[..i]);
    assert StepRefines(m, Outcome(m, s, schedule[..i]), schedule[i]);
  }

  lemma {:induction false} HandOversAlternate<S(!new), A(!new)>(
      m: Medium<S, A>, init: S -> bool, first: Side, total: nat, s: S, schedule: seq<A>)
    requires Implements(m, init, first, total) && init(s)
    ensures Alternates(HandOvers(m, s, schedule), first)
  {
    if schedule != [] {
      HandOversAlternate(m, init, first, total, s, schedule[..|schedule| - 1]);
      EveryActionInTurn(m, init, first, total, s, schedule, |schedule| - 1);
    }
  }

  lemma {:induction false} AlternatingCounts(sides: seq<Side>, first: Side)
    requires Alternates(sides, first)
    ensures multiset(sides)[first] == (|sides| + 1) / 2 && multiset(sides)[Other(first)] == |sides| / 2
  {
    if sides != [] {
      var n := |sides| - 1;
      assert Alternates(sides[..n], first) && sides == sides[..n] + [sides[n]];
      AlternatingCounts(sides[..n], first);
    }
  }

  /** Strict alternation, for every schedule of the two processes of any medium that implements the
      turn machine: no process works on the medium or hands it over except in its turn, the hand-overs
      alternate between the two processes beginning with `first`, and when both processes are done
      they have handed over `total` times together, half each, the odd one being the first's. */
  lemma TakesTurns<S(!new), A(!new)>(
      m: Medium<S, A>, init: S -> bool, first: Side, total: nat, s: S, schedule: seq<A>)
    requires Implements(m, init, first, total) && init(s)
    ensures forall i: nat :: i < |schedule| ==> InTurn(m, first, s, schedule, i)
    ensures Alternates(HandOvers(m, s, schedule), first)
    ensures
      var h := multiset(HandOvers(m, s, schedule));
      h[first] == h[Other(first)] || h[first] == h[Other(first)] + 1
    ensures m.done(Outcome(m, s, schedule)) ==>
              && multiset(HandOvers(m, s, schedule))[first] == (total + 1) / 2
              && multiset(HandOvers(m, s, schedule))[Other(first)] == total / 2
  {
    forall i: nat | i < |schedule| ensures InTurn(m, first, s, schedule, i) {
      EveryActionInTurn(m, init, first, total, s, schedule, i);
    }
    HandOversAlternate(m, init, first, total, s, schedule);
    AlternatingCounts(HandOvers(m, s, schedule), first);
    FollowsTurns(m, init, first, total, s, schedule);
  }

  // ---------- schedules and runs ----------

  /** The steps of a transition system are the actions of a medium that change something. */
  ghost predicate SameSteps<S(!new), A(!new)>(m: Medium<S, A>, sys: System<S>) {
    && (forall s, a :: m.step(s, a) == s || sys.next(s, m.step(s, a)))
    && (forall s, s' :: sys.next(s, s') ==> exists a :: m.step(s, a) == s')
  }

  lemma {:induction false} SchedulesReach<S(!new), A(!new)>(m: Medium<S, A>, sys: System<S>, s: S, schedule: seq<A>)
    requires SameSteps(m, sys) && Reachable(sys, s)
    ensures Reachable(sys, Outcome(m, s, schedule))
  {
    if schedule != [] {
      var front, a := schedule[..|schedule| - 1], schedule[|schedule| - 1];
      SchedulesReach(m, sys, s, front);
      var before := Outcome(m, s, front);
      if m.step(before, a) != before { ReachableStep(sys, before, m.step(before, a)); }
    }
  }

  /** Every run is the run of some schedule, so what holds of all schedules holds of all runs. */
  lemma {:induction false} RunsAreSchedules<S(!new), A(!new)>(m: Medium<S, A>, sys: System<S>, run: seq<S>)
      returns (schedule: seq<A>)
    requires SameSteps(m, sys) && IsRun(sys, run)
    ensures |schedule| == |run| - 1
    ensures forall i: nat :: i < |run| ==> run[i] == Outcome(m, run[0], schedule[..i])
  {
    schedule := [];
    if |run| > 1 {
      FrontIsRun(sys, run);
      var n := |run| - 1;
      var front := RunsAreSchedules(m, sys, run[..n]);
      assert sys.next(run[n - 1], run[n]);
      var a :| m.step(run[n - 1], a) == run[n];
      schedule := front + [a];
      forall i: nat | i < |run| ensures run[i] == Outcome(m, run[0], schedule[..i]) {
        if i < n {
          assert schedule[..i] == front[..i];
          assert run[..n][i] == run[i];
        } else {
          assert schedule[..n][..n - 1] == front[..n - 1];
          assert run[..n][n - 1] == run[n - 1];
        }
      }
    }
  }

  /** The steps of a run are actions of a schedule that keeps strictly to the turns. */
  ghost predicate RunInTurns<S(!new), A(!new)>(m: Medium<S, A>, first: Side, run: seq<S>, schedule: seq<A>) {
    && |run| == |schedule| + 1
    && (forall i: nat :: i < |run| ==> run[i] == Outcome(m, run[0], schedule[..i]))
    && (forall i: nat :: i < |schedule| ==> InTurn(m, first, run[0], schedule, i))
    && Alternates(HandOvers(m, run[0], schedule), first)
  }

  lemma RunsTakeTurns<S(!new), A(!new)>(m: Medium<S, A>, sys: System<S>, first: Side, total: nat, run: seq<S>)
      returns (schedule: seq<A>)
    requires Implements(m, sys.init, first, total) && SameSteps(m, sys) && IsRun(sys, run) && sys.init(run[0])
    ensures RunInTurns(m, first, run, schedule)
    ensures m.done(run[|run| - 1]) ==> |HandOvers(m, run[0], schedule)| == total
  {
    schedule := RunsAreSchedules(m, sys, run);
    TakesTurns(m, sys.init, first, total, run[0], schedule);
    FollowsTurns(m, sys.init, first, total, run[0], schedule);
    assert schedule[..|run| - 1] == schedule;
  }

  // ---------- fair schedules ----------

  /** An endless schedule with the states it leads through. */
  ghost predicate Unfolds<S(!new), A(!new)>(m: Medium<S, A>, order: nat -> A, states: nat -> S) {
    forall i: nat :: states(i + 1) == m.step(states(i), order(i))
  }

  /** Each process gets its turn again and again. */
  ghost predicate Fair<S(!new), A(!new)>(m: Medium<S, A>, order: nat -> A) {
    forall side: Side, i: nat :: ActsFrom(m, order, side, i)
  }

  ghost predicate ActsFrom<S(!new), A(!new)>(m: Medium<S, A>, order: nat -> A, side: Side, i: nat) {
    exists j: nat :: j >= i && m.actor(order(j)) == side
  }

  /** Steps change nothing or bring the end closer, and until the end one side's steps do the latter. */
  ghost predicate Settles<S(!new), A(!new)>(m: Medium<S, A>, rank: S -> nat) {
    && (forall s, a :: m.inv(s) ==>
          m.inv(m.step(s, a)) && (m.step(s, a) == s || rank(m.step(s, a)) < rank(s)))
    && (forall s :: m.inv(s) && !m.done(s) ==> exists side :: Urgent(m, s, side))
  }

  ghost predicate Urgent<S(!new), A(!new)>(m: Medium<S, A>, s: S, side: Side) {
    forall a :: m.actor(a) == side ==> m.step(s, a) != s
  }

  lemma {:induction false} InvariantForEver<S(!new), A(!new)>(
      m: Medium<S, A>, rank: S -> nat, order: nat -> A, states: nat -> S, i: nat)
    requires Unfolds(m, order, states) && Settles(m, rank) && m.inv(states(0))
    ensures m.inv(states(i))
  {
    if i > 0 {
      InvariantForEver(m, rank, order, states, i - 1);
      assert states(i - 1 + 1) == m.step(states(i - 1), order(i - 1));
    }
  }

  lemma {:induction false} NothingHappens<S(!new), A(!new)>(
      m: Medium<S, A>, rank: S -> nat, order: nat -> A, states: nat -> S, low: nat, i: nat)
    requires Unfolds(m, order, states) && Settles(m, rank) && m.inv(states(0))
    requires low <= i && forall j: nat :: j >= low ==> rank(states(j)) >= rank(states(low))
    ensures states(i) == states(low)
  {
    if i > low {
      NothingHappens(m, rank, order, states, low, i - 1);
      InvariantForEver(m, rank, order, states, i - 1);
      assert states(i - 1 + 1) == m.step(states(i - 1), order(i - 1));
    }
  }

  /** Every schedule in which neither process is left out for ever brings both to their end. */
  lemma FairSchedulesFinish<S(!new), A(!new)>(m: Medium<S, A>, rank: S -> nat, order: nat -> A, states: nat -> S)
    requires Unfolds(m, order, states) && Fair(m, order) && Settles(m, rank) && m.inv(states(0))
    ensures exists i: nat :: m.done(states(i))
  {
    var low := NeverUndercut(i => rank(states(i)), 0);
    InvariantForEver(m, rank, order, states, low);
    if !m.done(states(low)) {
      var side :| Urgent(m, states(low), side);
      assert ActsFrom(m, order, side, low);
      var j: nat :| j >= low && m.actor(order(j)) == side;
      forall k: nat | k >= low ensures rank(states(k)) >= rank(states(low)) {
        assert (i => rank(states(i)))(k) >= (i => rank(states(i)))(low);
      }
      var next: nat := j + 1;
      assert states(next) == m.step(states(j), order(j));
      NothingHappens(m, rank, order, states, low, next);
      NothingHappens(m, rank, order, states, low, j);
    }
  }
}
