/** The System V message-queue benchmark: typed messages on one queue, a no-wait send on the
    server's side, length checks on both. */
module MessageQueue {
  import opened Systems
  import opened Turns

  const MAXIMUM_MESSAGE_SIZE: nat := 2048
  const CLIENT_MESSAGE: nat := 1
  const SERVER_MESSAGE: nat := 2

  datatype Message = Message(kind: nat, buffer: seq<char>)

  /** The requested size is what both processes are started with; `queueBytes` is the kernel's limit. */
  datatype Config = Config(requested: nat, count: nat, queueBytes: nat)
  {
    ghost predicate Valid() {
      queueBytes >= MAXIMUM_MESSAGE_SIZE
    }
  }

  function LimitMessageSize(size: nat): nat {
    if size > MAXIMUM_MESSAGE_SIZE then MAXIMUM_MESSAGE_SIZE else size
  }

  datatype Pc = Sending | Receiving | Done | Failed

  /** What was received is history. */
  datatype State = State(
    queue: seq<Message>,
    spc: Pc, index: nat, sSize: nat, sReceived: seq<seq<char>>,
    cpc: Pc, remaining: nat, cSize: nat, cReceived: seq<seq<char>>)

  /** Each process clamps its own copy of the size before it starts. */
  ghost predicate Init(p: Config, s: State) {
    && s.queue == []
    && s.spc == (if p.count > 0 then Sending else Done) && s.index == 0
    && s.sSize == LimitMessageSize(p.requested) && s.sReceived == []
    && s.cpc == (if p.count > 0 then Receiving else Done) && s.remaining == p.count
    && s.cSize == LimitMessageSize(p.requested) && s.cReceived == []
  }

  function Fill(letter: char, n: nat): seq<char> {
    seq(n, i => letter)
  }

  function Bytes(queue: seq<Message>): nat {
    if queue == [] then 0 else |queue[0].buffer| + Bytes(queue[1..])
  }

  predicate Fits(p: Config, queue: seq<Message>, n: nat) {
    Bytes(queue) + n <= p.queueBytes
  }

  /** The position of the first message of a kind, or the length of the queue. */
  function First(queue: seq<Message>, kind: nat): (i: nat)
    ensures i <= |queue| && (i < |queue| ==> queue[i].kind == kind)
    ensures forall j :: 0 <= j < i ==> queue[j].kind != kind
  {
    if queue == [] || queue[0].kind == kind then 0 else 1 + First(queue[1..], kind)
  }

  function Without(queue: seq<Message>, i: nat): seq<Message> {
    if i < |queue| then queue[..i] + queue[i + 1..] else queue
  }

  datatype Action = ClientActs | ServerActs

  /** Receiving blocks until there is a message of the wanted kind; only the client's send may block. */
  predicate Enabled(p: Config, s: State, a: Action) {
    if a.ServerActs? then
      s.spc.Sending? || (s.spc.Receiving? && First(s.queue, CLIENT_MESSAGE) < |s.queue|)
    else
      || (s.cpc.Sending? && Fits(p, s.queue, s.cSize))
      || (s.cpc.Receiving? && First(s.queue, SERVER_MESSAGE) < |s.queue|)
  }

  function ServerStep(p: Config, s: State): State {
    match s.spc
    case Sending =>
      if Fits(p, s.queue, s.sSize) then
        s.(queue := s.queue + [Message(SERVER_MESSAGE, Fill('2', s.sSize))], spc := Receiving)
      else s.(spc := Failed)
    case Receiving =>
      var i := First(s.queue, CLIENT_MESSAGE);
      if i == |s.queue| then s
      // a longer message makes msgrcv fail, a shorter one fails the length check
      else if |s.queue[i].buffer| != s.sSize then s.(spc := Failed)
      else s.(queue := Without(s.queue, i), sReceived := s.sReceived + [s.queue[i].buffer],
              index := s.index + 1, spc := if s.index + 1 < p.count then Sending else Done)
    case _ => s
  }

  function ClientStep(p: Config, s: State): State {
    match s.cpc
    case Receiving =>
      var i := First(s.queue, SERVER_MESSAGE);
      if i == |s.queue| then s
      else if |s.queue[i].buffer| != s.cSize then s.(cpc := Failed)
      else s.(queue := Without(s.queue, i), cReceived := s.cReceived + [s.queue[i].buffer], cpc := Sending)
    case Sending =>
      if Fits(p, s.queue, s.cSize) then
        var left := if s.remaining > 0 then s.remaining - 1 else 0;
        s.(queue := s.queue + [Message(CLIENT_MESSAGE, Fill('1', s.cSize))], remaining := left,
           cpc := if left > 0 then Receiving else Done)
      else s
    case _ => s
  }

  function Step(p: Config, s: State, a: Action): State {
    if a.ServerActs? then ServerStep(p, s) else ClientStep(p, s)
  }

  ghost predicate Next(p: Config, s: State, s': State) {
    exists a :: Enabled(p, s, a) && s' == Step(p, s, a)
  }

  ghost predicate OneMessage(s: State, kind: nat, letter: char) {
    s.queue == [Message(kind, Fill(letter, s.sSize))]
  }

  ghost predicate Inv(p: Config, s: State) {
    var round := p.count - s.remaining;
    && p.Valid() && s.remaining <= p.count
    && s.sSize == s.cSize == LimitMessageSize(p.requested)
    && |s.sReceived| == s.index && |s.cReceived| == round + (if s.cpc.Sending? then 1 else 0)
    && (forall k :: 0 <= k < |s.sReceived| ==> s.sReceived[k] == Fill('1', s.sSize))
    && (forall k :: 0 <= k < |s.cReceived| ==> s.cReceived[k] == Fill('2', s.cSize))
    && (match s.spc
        case Sending => s.queue == [] && s.index == round < p.count && s.cpc.Receiving?
        case Receiving =>
          || (OneMessage(s, SERVER_MESSAGE, '2') && s.index == round < p.count && s.cpc.Receiving?)
          || (s.queue == [] && s.index == round < p.count && s.cpc.Sending?)
          || (OneMessage(s, CLIENT_MESSAGE, '1') && s.index + 1 == round <= p.count
              && s.cpc == if s.remaining > 0 then Receiving else Done)
        case Done => s.queue == [] && s.index == round == p.count && s.cpc.Done?
        case Failed => false)
  }

  lemma ServerKeepsInv(p: Config, s: State)
    requires Inv(p, s) && Enabled(p, s, ServerActs)
    ensures Inv(p, ServerStep(p, s))
  {
    assert Bytes([]) == 0;
  }

  lemma ClientKeepsInv(p: Config, s: State)
    requires Inv(p, s) && Enabled(p, s, ClientActs)
    ensures Inv(p, ClientStep(p, s))
  {
    assert Bytes([]) == 0;
  }

  // ---------- refinement and progress ----------

  function Abs(p: Config, s: State): Turns {
    var passes := s.index + (if s.spc.Receiving? then 1 else 0) + p.count - s.remaining;
    Turns(Server, if passes < 0 then 0 else passes, 2 * p.count)
  }

  /** Receiving is work on the queue, sending hands the turn over. */
  function LabelOf(p: Config, s: State, a: Action): Label {
    if !Enabled(p, s, a) then Stutter
    else if a.ServerActs? then (if s.spc.Sending? then Pass(Server) else Work(Server))
    else (if s.cpc.Sending? then Pass(Client) else Work(Client))
  }

  lemma EnabledStepRefines(p: Config, s: State, a: Action)
    requires Inv(p, s) && Enabled(p, s, a)
    ensures Does(Abs(p, s), LabelOf(p, s, a), Abs(p, Step(p, s, a)))
  {
    HolderByParity(Abs(p, s), s.index);
  }

  /** The queue with its two programs; a process that is not enabled is blocked. */
  ghost function Queue(p: Config): Medium<State, Action> {
    Medium((s: State, a: Action) => if Enabled(p, s, a) then Step(p, s, a) else s,
           (s: State, a: Action) => LabelOf(p, s, a),
           (a: Action) => if a.ClientActs? then Client else Server,
           (s: State) => BothDone(s), (s: State) => Abs(p, s), (s: State) => Inv(p, s))
  }

  ghost predicate BothDone(s: State) {
    s.spc.Done? && s.cpc.Done?
  }

  function Rank(p: Config, s: State): nat {
    var r := 2 * (p.count - s.index) - (if s.spc.Receiving? then 1 else 0)
             + 2 * s.remaining - (if s.cpc.Sending? then 1 else 0);
    if r < 0 then 0 else r
  }

  /** Every step there is brings the end closer, and until the end there is one. */
  lemma EveryStepCounts(p: Config, s: State, a: Action)
    requires Inv(p, s) && Enabled(p, s, a)
    ensures Rank(p, Step(p, s, a)) < Rank(p, s)
  {}

  lemma SomeoneMoves(p: Config, s: State)
    requires Inv(p, s) && !BothDone(s)
    ensures Enabled(p, s, ServerActs) || Enabled(p, s, ClientActs)
  {
    assert Bytes([]) == 0;
  }

  ghost function QueueSystem(p: Config): System<State> {
    System((s: State) => p.Valid() && Init(p, s), (s: State, s': State) => Next(p, s, s'),
           (s: State) => Inv(p, s), (s: State) => BothDone(s), (s: State) => Rank(p, s))
  }

  lemma StepKeepsInv(p: Config, s: State, a: Action)
    requires Inv(p, s) && Enabled(p, s, a)
    ensures Inv(p, Step(p, s, a)) && Rank(p, Step(p, s, a)) < Rank(p, s)
  {
    if a.ServerActs? { ServerKeepsInv(p, s); } else { ClientKeepsInv(p, s); }
    EveryStepCounts(p, s, a);
  }

  lemma QueueInductive(p: Config)
    ensures Inductive(QueueSystem(p)) && NeverRegresses(QueueSystem(p))
  {
    var sys := QueueSystem(p);
    forall s, s' | sys.inv(s) && sys.next(s, s') ensures sys.inv(s') && sys.rank(s') <= sys.rank(s) {
      var a :| Enabled(p, s, a) && s' == Step(p, s, a);
      StepKeepsInv(p, s, a);
    }
  }

  lemma QueueImplementsTurns(p: Config)
    ensures Implements(Queue(p), QueueSystem(p).init, Server, 2 * p.count)
    ensures SameSteps(Queue(p), QueueSystem(p))
  {
    var m, sys := Queue(p), QueueSystem(p);
    forall s, a | m.inv(s) ensures StepRefines(m, s, a) {
      if Enabled(p, s, a) {
        StepKeepsInv(p, s, a);
        EnabledStepRefines(p, s, a);
      }
    }
    forall s, s' | sys.next(s, s') ensures exists a :: m.step(s, a) == s' {
      var a :| Enabled(p, s, a) && s' == Step(p, s, a);
      assert m.step(s, a) == s';
    }
  }

  /** For every schedule: a process sends and receives only in its turn, the hand-overs alternate
      beginning with the server's, and when both are done each has made `count` of them. */
  lemma QueueTakesTurns(p: Config, s: State, schedule: seq<Action>)
    requires p.Valid() && Init(p, s)
    ensures forall i: nat :: i < |schedule| ==> InTurn(Queue(p), Server, s, schedule, i)
    ensures Alternates(HandOvers(Queue(p), s, schedule), Server)
    ensures BothDone(Outcome(Queue(p), s, schedule)) ==>
              && multiset(HandOvers(Queue(p), s, schedule))[Server] == p.count
              && multiset(HandOvers(Queue(p), s, schedule))[Client] == p.count
  {
    QueueImplementsTurns(p);
    TakesTurns(Queue(p), QueueSystem(p).init, Server, 2 * p.count, s, schedule);
  }

  /** Every run of the benchmark is such a schedule. */
  lemma QueueRunsTakeTurns(p: Config, run: seq<State>) returns (schedule: seq<Action>)
    requires IsRun(QueueSystem(p), run) && p.Valid() && Init(p, run[0])
    ensures RunInTurns(Queue(p), Server, run, schedule)
    ensures BothDone(run[|run| - 1]) ==> |HandOvers(Queue(p), run[0], schedule)| == 2 * p.count
  {
    QueueImplementsTurns(p);
    schedule := RunsTakeTurns(Queue(p), QueueSystem(p), Server, 2 * p.count, run);
  }

  /** Under every schedule that leaves neither process out for ever, both loops end. */
  lemma FairSendingEnds(p: Config, order: nat -> Action, states: nat -> State)
    requires p.Valid() && Init(p, states(0)) && Unfolds(Queue(p), order, states) && Fair(Queue(p), order)
    ensures exists i: nat :: BothDone(states(i))
  {
    var m := Queue(p);
    QueueImplementsTurns(p);
    forall s, a | m.inv(s)
      ensures m.inv(m.step(s, a)) && (m.step(s, a) == s || Rank(p, m.step(s, a)) < Rank(p, s))
    {
      if Enabled(p, s, a) { StepKeepsInv(p, s, a); }
    }
    forall s | m.inv(s) && !m.done(s) ensures exists side :: Urgent(m, s, side) {
      SomeoneMoves(p, s);
      if Enabled(p, s, ServerActs) {
        StepKeepsInv(p, s, ServerActs);
        assert Urgent(m, s, Server);
      } else {
        StepKeepsInv(p, s, ClientActs);
        assert Urgent(m, s, Client);
      }
    }
    FairSchedulesFinish(m, (s: State) => Rank(p, s), order, states);
  }

  /** The queue never holds more than one message and is empty whenever the server sends, so its
      no-wait send never finds the queue full; after both sides have clamped alike, no length check
      fails, and each side receives the other's fill. */
  lemma AtMostOneMessage(p: Config, s: State)
    requires Reachable(QueueSystem(p), s)
    ensures |s.queue| <= 1
    ensures forall m :: m in s.queue ==>
              |m.buffer| == s.sSize && forall i :: 0 <= i < s.sSize ==>
                m.buffer[i] == if m.kind == SERVER_MESSAGE then '2' else '1'
    ensures s.spc.Sending? || s.cpc.Sending? ==> s.queue == []
    ensures !s.spc.Failed? && !s.cpc.Failed?
    ensures forall k :: 0 <= k < |s.cReceived| ==> s.cReceived[k] == Fill('2', LimitMessageSize(p.requested))
    ensures forall k :: 0 <= k < |s.sReceived| ==> s.sReceived[k] == Fill('1', LimitMessageSize(p.requested))
    ensures s.sSize == s.cSize <= p.queueBytes
    ensures s.sSize == if p.requested <= 2048 then p.requested else 2048
    ensures forall k :: 0 <= k < |s.cReceived| ==>
              |s.cReceived[k]| == s.cSize && forall i :: 0 <= i < s.cSize ==> s.cReceived[k][i] == '2'
    ensures forall k :: 0 <= k < |s.sReceived| ==>
              |s.sReceived[k]| == s.sSize && forall i :: 0 <= i < s.sSize ==> s.sReceived[k][i] == '1'
    ensures BothDone(s) ==> |s.sReceived| == |s.cReceived| == p.count && s.queue == []
  {
    QueueInductive(p);
    InvariantWhereverReachable(QueueSystem(p), s);
  }

  lemma QueueFinishes(p: Config, s: State) returns (run: seq<State>)
    requires Reachable(QueueSystem(p), s)
    ensures IsRun(QueueSystem(p), run) && run[0] == s && BothDone(run[|run| - 1])
    ensures NeverRegresses(QueueSystem(p))
  {
    QueueInductive(p);
    var sys := QueueSystem(p);
    forall s | sys.inv(s) && !sys.done(s) ensures exists s' :: sys.next(s, s') && sys.rank(s') < sys.rank(s) {
      SomeoneMoves(p, s);
      var a := if Enabled(p, s, ServerActs) then ServerActs else ClientActs;
      EveryStepCounts(p, s, a);
      assert sys.next(s, Step(p, s, a));
    }
    InvariantWhereverReachable(sys, s);
    run := CanFinish(sys, s);
  }

  // ---------- the two programs ----------

  /** The queue and both processes' variables, updated in place. A method body is one iteration's send
      or receive with its checks; `failed` paths are those on which the C code exits. */
  class Processes {
    const p: Config
    const size: nat
    var queue: seq<Message>
    var spc: Pc
    var index: nat
    var cpc: Pc
    var remaining: nat
    ghost var sReceived: seq<seq<char>>
    ghost var cReceived: seq<seq<char>>

    constructor (p: Config)
      requires p.Valid()
      ensures this.p == p && Init(p, View())
    {
      this.p := p;
      size := LimitMessageSize(p.requested);
      queue, index, remaining := [], 0, p.count;
      spc := if p.count > 0 then Sending else Done;
      cpc := if p.count > 0 then Receiving else Done;
      sReceived, cReceived := [], [];
    }

    ghost function View(): State
      reads this
    {
      State(queue, spc, index, size, sReceived, cpc, remaining, size, cReceived)
    }

    method ServerActs()
      requires Enabled(p, View(), Action.ServerActs)
      modifies `queue, `spc, `index, `sReceived
      ensures View() == ServerStep(p, old(View()))
    {
      if spc.Sending? {
        var message := Message(SERVER_MESSAGE, Fill('2', size));
        if !Fits(p, queue, size) { spc := Failed; return; }
        queue, spc := queue + [message], Receiving;
      } else {
        var i := First(queue, CLIENT_MESSAGE);
        if |queue[i].buffer| != size { spc := Failed; return; }
        sReceived := sReceived + [queue[i].buffer];
        queue, index := Without(queue, i), index + 1;
        spc := if index < p.count then Sending else Done;
      }
    }

    method ClientActs()
      requires Enabled(p, View(), Action.ClientActs)
      modifies `queue, `cpc, `remaining, `cReceived
      ensures View() == ClientStep(p, old(View()))
    {
      if cpc.Receiving? {
        var i := First(queue, SERVER_MESSAGE);
        if |queue[i].buffer| != size { cpc := Failed; return; }
        cReceived := cReceived + [queue[i].buffer];
        queue, cpc := Without(queue, i), Sending;
      } else {
        queue := queue + [Message(CLIENT_MESSAGE, Fill('1', size))];
        remaining := if remaining > 0 then remaining - 1 else 0;
        cpc := if remaining > 0 then Receiving else Done;
      }
    }

    predicate Ready(a: Action)
      reads this
      ensures Ready(a) == Enabled(p, View(), a)
    {
      Enabled(p, State(queue, spc, index, size, [], cpc, remaining, size, []), a)
    }

    /** Both programs under an arbitrary schedule. */
    method Run(schedule: seq<Action>)
      modifies this
      ensures View() == Outcome(Queue(p), old(View()), schedule)
    {
      ghost var start := View();
      var i := 0;
      while i < |schedule|
        invariant i <= |schedule| && View() == Outcome(Queue(p), start, schedule[..i])
      {
        OneMore(Queue(p), start, schedule, i);
        if Ready(schedule[i]) {
          if schedule[i].ClientActs? { ClientActs(); } else { ServerActs(); }
        }
        i := i + 1;
      }
      assert schedule[..i] == schedule;
    }
  }
}
