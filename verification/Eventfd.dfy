/** The bidirectional eventfd benchmark: one counter carries two tokens. A read takes the whole
    counter; a process that took its own token writes it back and tries again. */
module Eventfd {
  import opened Systems
  import opened Turns

  const SERVER_TOKEN: nat := 1
  const CLIENT_TOKEN: nat := 2

  /** Reading blocks on an empty counter; Holding is between the read and what follows it. */
  datatype Pc = Notifying | Reading | Holding(stored: nat) | Done

  datatype State = State(counter: nat, spc: Pc, message: nat, cpc: Pc, remaining: nat)

  ghost predicate Init(count: nat, s: State) {
    && s.counter == 0 && s.message == 0 && s.remaining == count
    && s.spc == (if count > 0 then Reading else Done)
    && s.cpc == (if count > 0 then Notifying else Done)
  }

  datatype Action = ClientActs | ServerActs

  /** A process can take its next step; only a read of an empty counter blocks. */
  predicate Enabled(s: State, a: Action) {
    var pc := if a.ClientActs? then s.cpc else s.spc;
    !pc.Done? && (pc.Reading? ==> s.counter > 0)
  }

  function ClientStep(s: State): State {
    match s.cpc
    case Notifying => s.(counter := s.counter + SERVER_TOKEN, cpc := Reading)
    case Reading => s.(cpc := Holding(s.counter), counter := 0)
    case Holding(stored) =>
      if stored == CLIENT_TOKEN then
        var left := if s.remaining > 0 then s.remaining - 1 else 0;
        s.(remaining := left, cpc := if left > 0 then Notifying else Done)
      else
        s.(counter := s.counter + stored, cpc := Reading)
    case Done => s
  }

  function ServerStep(count: nat, s: State): State {
    match s.spc
    case Reading => s.(spc := Holding(s.counter), counter := 0)
    case Holding(stored) =>
      if stored == SERVER_TOKEN then s.(spc := Notifying) else s.(counter := s.counter + stored, spc := Reading)
    case Notifying =>
      s.(counter := s.counter + CLIENT_TOKEN, message := s.message + 1,
         spc := if s.message + 1 < count then Reading else Done)
    case Done => s
  }

  function Step(count: nat, s: State, a: Action): State {
    if a.ClientActs? then ClientStep(s) else ServerStep(count, s)
  }

  ghost predicate Next(count: nat, s: State, s': State) {
    exists a :: Enabled(s, a) && s' == Step(count, s, a)
  }

  // ---------- tokens ----------

  function Held(pc: Pc): nat {
    if pc.Holding? then pc.stored else 0
  }

  /** All there is in the counter and in the processes' hands. */
  function Tokens(s: State): nat {
    s.counter + Held(s.cpc) + Held(s.spc)
  }

  ghost predicate OneHolder(s: State) {
    && (s.counter > 0 ==> Held(s.cpc) == Held(s.spc) == 0)
    && (Held(s.cpc) == 0 || Held(s.spc) == 0)
    && (s.cpc.Holding? ==> s.cpc.stored > 0) && (s.spc.Holding? ==> s.spc.stored > 0)
  }

  ghost predicate Inv(count: nat, s: State) {
    && s.remaining <= count && OneHolder(s)
    && (var round := count - s.remaining;
        if s.cpc.Notifying? then
          Tokens(s) == 0 && s.message == round < count && s.spc.Reading?
        else if s.cpc.Done? then
          Tokens(s) == 0 && s.remaining == 0 && s.message == count && s.spc.Done?
        else
          || (Tokens(s) == SERVER_TOKEN && s.message == round < count && !s.spc.Notifying? && !s.spc.Done?)
          || (Tokens(s) == 0 && s.message == round < count && s.spc.Notifying? && s.cpc.Reading?)
          || (Tokens(s) == CLIENT_TOKEN && s.message == round + 1 <= count && !s.spc.Notifying?
              && (s.spc.Done? <==> s.message == count)))
  }

  lemma StepKeepsInv(count: nat, s: State, a: Action)
    requires Inv(count, s) && Enabled(s, a)
    ensures Inv(count, Step(count, s, a))
  {}

  // ---------- refinement ----------

  function Abs(count: nat, s: State): Turns {
    var clientPasses := count - s.remaining + (if s.cpc.Reading? || s.cpc.Holding? then 1 else 0);
    Turns(Client, if clientPasses + s.message < 0 then 0 else clientPasses + s.message, 2 * count)
  }

  /** Taking the token that was put there for the process is its work, putting the other's token there
      hands over, and everything else, thefts and write-backs among it, leaves the tokens as they are. */
  function LabelOf(s: State, a: Action): Label {
    if !Enabled(s, a) then Stutter
    else if a.ClientActs? then
      match s.cpc
      case Notifying => Pass(Client)
      case Holding(stored) => if stored == CLIENT_TOKEN then Work(Client) else Stutter
      case _ => if s.counter == CLIENT_TOKEN then Work(Client) else Stutter
    else
      match s.spc
      case Notifying => Pass(Server)
      case Holding(stored) => if stored == SERVER_TOKEN then Work(Server) else Stutter
      case _ => if s.counter == SERVER_TOKEN then Work(Server) else Stutter
  }

  lemma EnabledStepRefines(count: nat, s: State, a: Action)
    requires Inv(count, s) && Enabled(s, a)
    ensures Does(Abs(count, s), LabelOf(s, a), Abs(count, Step(count, s, a)))
  {
    HolderByParity(Abs(count, s), s.message);
  }

  /** The counter with its two programs; a process that is not enabled is blocked. */
  ghost function Descriptor(count: nat): Medium<State, Action> {
    Medium((s: State, a: Action) => if Enabled(s, a) then Step(count, s, a) else s,
           (s: State, a: Action) => LabelOf(s, a),
           (a: Action) => if a.ClientActs? then Client else Server,
           (s: State) => BothDone(s), (s: State) => Abs(count, s), (s: State) => Inv(count, s))
  }

  // ---------- progress ----------

  ghost predicate BothDone(s: State) {
    s.cpc.Done? && s.spc.Done?
  }

  /** The steps to go along a schedule in which nobody takes his own token again. */
  function Rank(count: nat, s: State): nat {
    var round := count - s.remaining;
    var rounds := 6 * (if round < count then count - round else 0);
    if rounds == 0 then 0
    else if s.cpc.Notifying? then rounds
    else if Tokens(s) == SERVER_TOKEN then
      rounds - 1 - (if s.spc.Holding? then 1 else 0) + (if s.cpc.Holding? then 1 else 0)
    else if Tokens(s) == 0 then rounds - 3
    else rounds - 4 - (if s.cpc.Holding? then 1 else 0) + (if s.spc.Holding? then 1 else 0)
  }

  lemma SomeoneAdvances(count: nat, s: State) returns (a: Action)
    requires Inv(count, s) && !BothDone(s)
    ensures Enabled(s, a) && Rank(count, Step(count, s, a)) < Rank(count, s)
  {
    if s.cpc.Notifying? { a := ClientActs; }
    else if Tokens(s) == SERVER_TOKEN { a := if s.cpc.Holding? then ClientActs else ServerActs; }
    else if Tokens(s) == 0 { a := ServerActs; }
    else { a := if s.spc.Holding? then ServerActs else ClientActs; }
  }

  /** A read that takes the process's own token. */
  predicate Theft(s: State, a: Action) {
    if a.ClientActs? then s.cpc.Reading? && s.counter == SERVER_TOKEN else s.spc.Reading? && s.counter == CLIENT_TOKEN
  }

  /** Every step but a theft brings the end closer, and a theft costs one step: a run that never ends
      steals again and again. */
  lemma OnlyTheftsDelay(count: nat, s: State, a: Action)
    requires Inv(count, s) && Enabled(s, a)
    ensures if Theft(s, a) then Rank(count, Step(count, s, a)) == Rank(count, s) + 1
            else Rank(count, Step(count, s, a)) < Rank(count, s)
  {}

  ghost function TokenSystem(count: nat): System<State> {
    System((s: State) => Init(count, s), (s: State, s': State) => Next(count, s, s'),
           (s: State) => Inv(count, s), (s: State) => BothDone(s), (s: State) => Rank(count, s))
  }

  lemma TokensInductive(count: nat)
    ensures Inductive(TokenSystem(count))
  {
    var sys := TokenSystem(count);
    forall s, s' | sys.inv(s) && sys.next(s, s') ensures sys.inv(s') {
      var a :| Enabled(s, a) && s' == Step(count, s, a);
      StepKeepsInv(count, s, a);
    }
  }

  lemma DescriptorImplementsTurns(count: nat)
    ensures Implements(Descriptor(count), TokenSystem(count).init, Client, 2 * count)
    ensures SameSteps(Descriptor(count), TokenSystem(count))
  {
    var m, sys := Descriptor(count), TokenSystem(count);
    forall s, a | m.inv(s) ensures StepRefines(m, s, a) {
      if Enabled(s, a) {
        StepKeepsInv(count, s, a);
        EnabledStepRefines(count, s, a);
      }
    }
    forall s, s' | sys.next(s, s') ensures exists a :: m.step(s, a) == s' {
      var a :| Enabled(s, a) && s' == Step(count, s, a);
      assert m.step(s, a) == s';
    }
  }

  lemma ScheduleKeepsInv(count: nat, s: State, schedule: seq<Action>)
    requires Init(count, s)
    ensures Inv(count, Outcome(Descriptor(count), s, schedule))
  {
    DescriptorImplementsTurns(count);
    FollowsTurns(Descriptor(count), TokenSystem(count).init, Client, 2 * count, s, schedule);
  }

  /** For every schedule: a process uses up a token or puts one there only in its turn, the hand-overs
      alternate beginning with the client's, and when both are done each has made `count` of them. */
  lemma TokensTakeTurns(count: nat, s: State, schedule: seq<Action>)
    requires Init(count, s)
    ensures forall i: nat :: i < |schedule| ==> InTurn(Descriptor(count), Client, s, schedule, i)
    ensures Alternates(HandOvers(Descriptor(count), s, schedule), Client)
    ensures BothDone(Outcome(Descriptor(count), s, schedule)) ==>
              && multiset(HandOvers(Descriptor(count), s, schedule))[Server] == count
              && multiset(HandOvers(Descriptor(count), s, schedule))[Client] == count
  {
    DescriptorImplementsTurns(count);
    TakesTurns(Descriptor(count), TokenSystem(count).init, Client, 2 * count, s, schedule);
  }

  /** Every run of the benchmark is such a schedule. */
  lemma TokenRunsTakeTurns(count: nat, run: seq<State>) returns (schedule: seq<Action>)
    requires IsRun(TokenSystem(count), run) && Init(count, run[0])
    ensures RunInTurns(Descriptor(count), Client, run, schedule)
    ensures BothDone(run[|run| - 1]) ==> |HandOvers(Descriptor(count), run[0], schedule)| == 2 * count
  {
    DescriptorImplementsTurns(count);
    schedule := RunsTakeTurns(Descriptor(count), TokenSystem(count), Client, 2 * count, run);
  }

  /** What a step that is neither work nor a hand-over leaves alone: the tokens there are. */
  lemma StutterKeepsTokens(count: nat, s: State, a: Action)
    requires Inv(count, s) && Enabled(s, a) && LabelOf(s, a).Stutter?
    ensures Tokens(Step(count, s, a)) == Tokens(s)
    ensures Step(count, s, a).message == s.message && Step(count, s, a).remaining == s.remaining
  {}

  /** Tokens never merge and are never lost: what is in the counter and in hand is nothing, one
      server token or one client token, in one place; some process can always move until both are
      done, and then the counter is empty. */
  lemma TokensAreConserved(count: nat, s: State)
    requires Reachable(TokenSystem(count), s)
    ensures Tokens(s) in {0, SERVER_TOKEN, CLIENT_TOKEN}
    ensures s.counter in {0, Tokens(s)} && Held(s.cpc) in {0, Tokens(s)} && Held(s.spc) in {0, Tokens(s)}
    ensures BothDone(s) || Enabled(s, ClientActs) || Enabled(s, ServerActs)
    ensures BothDone(s) ==> s.counter == 0 && s.message == count
    ensures Abs(count, s).passes <= 2 * count
  {
    TokensInductive(count);
    InvariantWhereverReachable(TokenSystem(count), s);
    if !BothDone(s) { var a := SomeoneAdvances(count, s); }
  }

  /** A process that takes its own token can put it back at once, and then nothing has happened. */
  lemma StealingLosesNothing(count: nat, s: State, a: Action)
    requires Inv(count, s) && Enabled(s, a) && Theft(s, a)
    ensures
      var taken := Step(count, s, a);
      Enabled(taken, a) && Step(count, taken, a) == s
  {}

  lemma FirstToken(count: nat, start: State) returns (s: State)
    requires Init(count, start) && count > 0
    ensures Reachable(TokenSystem(count), s) && s == State(SERVER_TOKEN, Reading, 0, Reading, count)
  {
    Started(TokenSystem(count), start);
    s := Step(count, start, ClientActs);
    assert Enabled(start, ClientActs);
    ReachableStep(TokenSystem(count), start, s);
  }

  /** Giving each process its turn again and again is not enough: if the server is always tried while the
      client holds the token it has stolen, the three steps lead back to where they began. */
  lemma TheftCanStarve(count: nat, start: State) returns (s: State)
    requires Init(count, start) && count > 0
    ensures Reachable(TokenSystem(count), s) && !BothDone(s)
    ensures Outcome(Descriptor(count), s, [ClientActs, ServerActs, ClientActs]) == s
  {
    s := FirstToken(count, start);
    var m, schedule := Descriptor(count), [ClientActs, ServerActs, ClientActs];
    OneMore(m, s, schedule, 0);
    OneMore(m, s, schedule, 1);
    OneMore(m, s, schedule, 2);
    assert schedule[..3] == schedule;
  }

  /** From every reachable state both loops can be run to their end. */
  lemma TokensFinish(count: nat, s: State) returns (run: seq<State>)
    requires Reachable(TokenSystem(count), s)
    ensures IsRun(TokenSystem(count), run) && run[0] == s && BothDone(run[|run| - 1])
  {
    TokensInductive(count);
    var sys := TokenSystem(count);
    forall s | sys.inv(s) && !sys.done(s) ensures exists s' :: sys.next(s, s') && sys.rank(s') < sys.rank(s) {
      var a := SomeoneAdvances(count, s);
      assert sys.next(s, Step(count, s, a));
    }
    InvariantWhereverReachable(sys, s);
    run := CanFinish(sys, s);
  }

  // ---------- endless schedules ----------

  /** At the i-th moment of a schedule a process takes its own token. */
  ghost predicate StealsAt(order: nat -> Action, states: nat -> State, i: nat) {
    Enabled(states(i), order(i)) && Theft(states(i), order(i))
  }

  ghost predicate NoTheftsFrom(order: nat -> Action, states: nat -> State, n: nat) {
    forall i: nat :: i >= n ==> !StealsAt(order, states, i)
  }

  lemma {:induction false} InvForEver(count: nat, order: nat -> Action, states: nat -> State, i: nat)
    requires Init(count, states(0)) && Unfolds(Descriptor(count), order, states)
    ensures Inv(count, states(i))
  {
    if i > 0 {
      var k: nat := i - 1;
      InvForEver(count, order, states, k);
      assert states(k + 1) == Descriptor(count).step(states(k), order(k));
      if Enabled(states(k), order(k)) { StepKeepsInv(count, states(k), order(k)); }
    }
  }

  lemma {:induction false} DoneForEver(count: nat, order: nat -> Action, states: nat -> State, i: nat, j: nat)
    requires Unfolds(Descriptor(count), order, states) && BothDone(states(i)) && i <= j
    ensures BothDone(states(j))
  {
    if i < j {
      var k: nat := j - 1;
      DoneForEver(count, order, states, i, k);
      assert states(k + 1) == Descriptor(count).step(states(k), order(k));
    }
  }

  /** From the moment on at which the rank is lowest and nobody steals any more, everybody is blocked. */
  lemma {:induction false} StandsStill(count: nat, order: nat -> Action, states: nat -> State, low: nat, i: nat)
    requires Init(count, states(0)) && Unfolds(Descriptor(count), order, states) && low <= i
    requires forall j: nat :: j >= low ==> Rank(count, states(j)) >= Rank(count, states(low))
    requires NoTheftsFrom(order, states, low)
    ensures states(i) == states(low) && !Enabled(states(i), order(i))
    decreases i
  {
    if i > low {
      var k: nat := i - 1;
      StandsStill(count, order, states, low, k);
      assert states(k + 1) == Descriptor(count).step(states(k), order(k));
    }
    InvForEver(count, order, states, i);
    assert !StealsAt(order, states, i);
    var next: nat := i + 1;
    assert states(next) == Descriptor(count).step(states(i), order(i));
    assert Rank(count, states(next)) >= Rank(count, states(low));
    if Enabled(states(i), order(i)) { OnlyTheftsDelay(count, states(i), order(i)); }
  }

  lemma LastTheftEnds(count: nat, order: nat -> Action, states: nat -> State, n: nat) returns (low: nat)
    requires Init(count, states(0)) && Unfolds(Descriptor(count), order, states) && Fair(Descriptor(count), order)
    requires NoTheftsFrom(order, states, n)
    ensures BothDone(states(low))
  {
    var ranks := (i: nat) => Rank(count, states(i));
    low := NeverUndercut(ranks, n);
    forall j: nat | j >= low ensures Rank(count, states(j)) >= Rank(count, states(low)) {
      assert ranks(j) >= ranks(low);
    }
    InvForEver(count, order, states, low);
    if !BothDone(states(low)) {
      var a := SomeoneAdvances(count, states(low));
      assert ActsFrom(Descriptor(count), order, Descriptor(count).actor(a), low);
      var j: nat :| j >= low && Descriptor(count).actor(order(j)) == Descriptor(count).actor(a);
      assert order(j) == a;
      StandsStill(count, order, states, low, j);
    }
  }

  /** Exactly when the benchmark ends: under a schedule that leaves neither process out for ever, both loops
      end if and only if from some moment on no process takes its own token. */
  lemma EndsIffTheftsStop(count: nat, order: nat -> Action, states: nat -> State)
    requires Init(count, states(0)) && Unfolds(Descriptor(count), order, states) && Fair(Descriptor(count), order)
    ensures
      (exists i: nat :: BothDone(states(i)))
      <==> (exists n: nat :: NoTheftsFrom(order, states, n))
  {
    if n: nat :| BothDone(states(n)) {
      forall i: nat | i >= n ensures !StealsAt(order, states, i) { DoneForEver(count, order, states, n, i); }
      assert NoTheftsFrom(order, states, n);
    }
    if n: nat :| NoTheftsFrom(order, states, n) {
      var low := LastTheftEnds(count, order, states, n);
    }
  }

  // ---------- the two programs ----------

  /** The counter and both processes' variables, updated in place; each method is the process's next
      system call or comparison. */
  class Processes {
    const count: nat
    var counter: nat
    var spc: Pc
    var message: nat
    var cpc: Pc
    var remaining: nat

    constructor (count: nat)
      ensures this.count == count && Init(count, View())
    {
      this.count, counter, message, remaining := count, 0, 0, count;
      spc := if count > 0 then Reading else Done;
      cpc := if count > 0 then Notifying else Done;
    }

    function View(): State
      reads this
    {
      State(counter, spc, message, cpc, remaining)
    }

    method ClientActs()
      requires Inv(count, View()) && Enabled(View(), Action.ClientActs)
      modifies `counter, `cpc, `remaining
      ensures View() == ClientStep(old(View()))
    {
      match cpc {
        case Notifying =>
          counter, cpc := counter + SERVER_TOKEN, Reading;
        case Reading =>
          counter, cpc := 0, Holding(counter);
        case Holding(stored) =>
          if stored == CLIENT_TOKEN {
            remaining := remaining - 1;
            cpc := if remaining > 0 then Notifying else Done;
          } else {
            counter, cpc := counter + stored, Reading;
          }
        case Done =>
      }
    }

    method ServerActs()
      requires Inv(count, View()) && Enabled(View(), Action.ServerActs)
      modifies `counter, `spc, `message
      ensures View() == ServerStep(count, old(View()))
    {
      match spc {
        case Reading =>
          counter, spc := 0, Holding(counter);
        case Holding(stored) =>
          if stored == SERVER_TOKEN { spc := Notifying; } else { counter, spc := counter + stored, Reading; }
        case Notifying =>
          counter, message := counter + CLIENT_TOKEN, message + 1;
          spc := if message < count then Reading else Done;
        case Done =>
      }
    }

    /** The next step of one process, if it is not blocked. */
    method Act(a: Action)
      requires Inv(count, View())
      modifies this
      ensures View() == if Enabled(old(View()), a) then Step(count, old(View()), a) else old(View())
    {
      if Enabled(View(), a) {
        if a.ClientActs? { ClientActs(); } else { ServerActs(); }
      }
    }

    /** Both programs under an arbitrary schedule. */
    method Run(schedule: seq<Action>)
      requires Init(count, View())
      modifies this
      ensures View() == Outcome(Descriptor(count), old(View()), schedule)
    {
      ghost var start := View();
      var i := 0;
      while i < |schedule|
        invariant i <= |schedule| && View() == Outcome(Descriptor(count), start, schedule[..i])
      {
        ScheduleKeepsInv(count, start, schedule[..i]);
        OneMore(Descriptor(count), start, schedule, i);
        Act(schedule[i]);
        i := i + 1;
      }
      assert schedule[..i] == schedule;
    }
  }
}
