/** The pipe benchmark: data through a pipe of bounded capacity, turns handed over by signals, which
    are pending bits that coalesce. The model starts when both signal masks are installed. */
module SignalPipe {
  import opened Arithmetic
  import opened Bytes
  import opened Systems
  import opened Turns

  /** The payload is the (never written) contents of the server's buffer. */
  datatype Config = Config(count: nat, capacity: nat, payload: seq<byte>)
  {
    function Size(): nat { |payload| }

    ghost predicate Valid() {
      Size() > 0
    }
  }

  datatype ServerPc = SFirstWait | SWriting(got: nat) | SNotify | SWait | SDone
  datatype ClientPc = CFirstNotify | CWait | CReading(got: nat) | CNotify | CDone

  /** A notification that hits a signal still pending is lost; `received` is history. */
  datatype State = State(
    pipe: seq<byte>,
    serverPending: bool, clientPending: bool,
    spc: ServerPc, message: nat,
    cpc: ClientPc, remaining: nat, cBuffer: seq<byte>, received: seq<seq<byte>>)

  ghost predicate Init(p: Config, s: State) {
    && s.pipe == [] && !s.serverPending && !s.clientPending
    && s.spc == SFirstWait && s.message == 0
    && s.cpc == CFirstNotify && s.remaining == p.count && |s.cBuffer| == p.Size() && s.received == []
  }

  datatype Action =
    | ServerWaits | ServerWrites(n: nat) | ServerNotifies
    | ClientWaits | ClientReads(n: nat) | ClientNotifies

  /** sigwait blocks until its signal is pending, a write until there is room, a read until there
      are bytes; each call may move any part of what is asked for. */
  predicate Enabled(p: Config, s: State, a: Action) {
    match a
    case ServerWaits => (s.spc.SFirstWait? || s.spc.SWait?) && s.serverPending
    case ServerWrites(n) => s.spc.SWriting? && 1 <= n <= p.Size() - s.spc.got && |s.pipe| + n <= p.capacity
    case ServerNotifies => s.spc.SNotify?
    case ClientWaits => s.cpc.CWait? && s.clientPending
    case ClientReads(n) => s.cpc.CReading? && 1 <= n <= p.Size() - s.cpc.got && n <= |s.pipe|
    case ClientNotifies => s.cpc.CFirstNotify? || s.cpc.CNotify?
  }

  function Apply(p: Config, s: State, a: Action): State
    requires Enabled(p, s, a)
  {
    match a
    case ServerWaits =>
      var done := if s.spc.SWait? then s.message + 1 else s.message;
      s.(serverPending := false, message := done, spc := if done < p.count then SWriting(0) else SDone)
    case ServerWrites(n) =>
      var got := s.spc.got + n;
      s.(pipe := s.pipe + p.payload[s.spc.got..got], spc := if got < p.Size() then SWriting(got) else SNotify)
    case ServerNotifies =>
      s.(clientPending := true, spc := SWait)
    case ClientWaits => s.(clientPending := false, cpc := CReading(0))
    case ClientReads(n) =>
      var got := s.cpc.got + n;
      var buffer := Splice(s.cBuffer, s.cpc.got, s.pipe[..n]);
      s.(pipe := s.pipe[n..], cBuffer := buffer,
         received := if got < p.Size() then s.received else s.received + [buffer],
         cpc := if got < p.Size() then CReading(got) else CNotify)
    case ClientNotifies =>
      var left := if s.cpc.CNotify? && s.remaining > 0 then s.remaining - 1 else s.remaining;
      s.(serverPending := true, remaining := left, cpc := if left > 0 then CWait else CDone)
  }

  ghost predicate Next(p: Config, s: State, s': State) {
    exists a :: Enabled(p, s, a) && s' == Apply(p, s, a)
  }

  // ---------- the invariant ----------

  ghost predicate ClientIdle(s: State) {
    s.cpc == (if s.remaining > 0 then CWait else CDone) && !s.clientPending
  }

  ghost predicate ServerTurn(p: Config, s: State) {
    var round := p.count - s.remaining;
    && ClientIdle(s)
    && (match s.spc
        case SFirstWait => s.serverPending && s.pipe == [] && s.message == round == 0
        case SWriting(got) =>
          !s.serverPending && got < p.Size() && s.pipe == Take(p.payload, got) && s.message == round < p.count
        case SNotify => !s.serverPending && s.pipe == p.payload && s.message == round < p.count
        case SWait => s.serverPending && s.pipe == [] && s.message + 1 == round
        case SDone => !s.serverPending && s.pipe == [] && s.message == round == p.count)
  }

  ghost predicate ClientTurn(p: Config, s: State) {
    var round := p.count - s.remaining;
    && !s.serverPending && s.message == round
    && (match s.cpc
        case CFirstNotify => s.spc.SFirstWait? && !s.clientPending && s.pipe == [] && round == 0
        case CWait => s.spc.SWait? && s.clientPending && s.pipe == p.payload && round < p.count
        case CReading(got) =>
          && s.spc.SWait? && !s.clientPending && got < p.Size() && round < p.count
          && Take(s.cBuffer, got) + s.pipe == p.payload
        case CNotify =>
          s.spc.SWait? && !s.clientPending && s.pipe == [] && round < p.count && s.cBuffer == p.payload
        case CDone => false)
  }

  ghost predicate Inv(p: Config, s: State) {
    && p.Valid() && s.remaining <= p.count && |s.cBuffer| == p.Size()
    && |s.received| == p.count - s.remaining + (if s.cpc.CNotify? then 1 else 0)
    && (forall k :: 0 <= k < |s.received| ==> s.received[k] == p.payload)
    && (ServerTurn(p, s) || ClientTurn(p, s))
  }

  lemma ServerKeepsInv(p: Config, s: State, a: Action)
    requires Inv(p, s) && Enabled(p, s, a) && (a.ServerWaits? || a.ServerWrites? || a.ServerNotifies?)
    ensures Inv(p, Apply(p, s, a))
  {
    if a.ServerWrites? {
      var got := s.spc.got;
      assert Take(p.payload, got + a.n) == Take(p.payload, got) + p.payload[got..got + a.n];
      assert Take(p.payload, p.Size()) == p.payload;
    }
  }

  lemma ClientKeepsInv(p: Config, s: State, a: Action)
    requires Inv(p, s) && Enabled(p, s, a) && (a.ClientWaits? || a.ClientReads? || a.ClientNotifies?)
    ensures Inv(p, Apply(p, s, a))
  {
    if a.ClientReads? {
      var s' := Apply(p, s, a);
      var got := s.cpc.got;
      assert s'.cBuffer[..got + a.n] == s.cBuffer[..got] + s.pipe[..a.n];
      assert s.pipe == s.pipe[..a.n] + s'.pipe;
      assert s'.cBuffer[..got + a.n] + s'.pipe == p.payload;
      if got + a.n == p.Size() { assert s'.cBuffer[..got + a.n] == s'.cBuffer; }
    }
  }

  // ---------- refinement ----------

  function Abs(p: Config, s: State): Turns {
    var passes := (if s.cpc.CFirstNotify? then 0 else 1) + p.count - s.remaining
                  + s.message + (if s.spc.SWait? then 1 else 0);
    Turns(Client, if passes < 0 then 0 else passes, 2 * p.count + 1)
  }

  function Actor(a: Action): Side {
    if a.ServerWaits? || a.ServerWrites? || a.ServerNotifies? then Server else Client
  }

  /** Everything a process does to the pipe or its own signal is work, notifying hands the turn over. */
  function LabelOf(p: Config, s: State, a: Action): Label {
    if !Enabled(p, s, a) then Stutter
    else if a.ServerNotifies? || a.ClientNotifies? then Pass(Actor(a))
    else Work(Actor(a))
  }

  lemma EnabledStepRefines(p: Config, s: State, a: Action)
    requires Inv(p, s) && Enabled(p, s, a)
    ensures Does(Abs(p, s), LabelOf(p, s, a), Abs(p, Apply(p, s, a)))
  {
    HolderByParity(Abs(p, s), s.message);
    HolderByParity(Abs(p, s), s.message + 1);
  }

  /** The pipe with its two programs; a process that is not enabled is blocked. */
  ghost function Notified(p: Config): Medium<State, Action> {
    Medium((s: State, a: Action) => if Enabled(p, s, a) then Apply(p, s, a) else s,
           (s: State, a: Action) => LabelOf(p, s, a), (a: Action) => Actor(a),
           (s: State) => BothDone(s), (s: State) => Abs(p, s), (s: State) => Inv(p, s))
  }

  // ---------- progress ----------

  ghost predicate BothDone(s: State) {
    s.spc.SDone? && s.cpc.CDone?
  }

  function Rank(p: Config, s: State): int {
    var round := 2 * p.Size() + 4;
    var server :=
      match s.spc
      case SFirstWait => (p.count - s.message) * round + 1
      case SWriting(got) => (p.count - s.message) * round - got
      case SNotify => (p.count - s.message) * round - p.Size()
      case SWait => (p.count - s.message) * round - p.Size() - 1
      case SDone => 0;
    var client :=
      match s.cpc
      case CFirstNotify => s.remaining * round + 1
      case CWait => s.remaining * round
      case CReading(got) => s.remaining * round - 1 - got
      case CNotify => s.remaining * round - 1 - p.Size()
      case CDone => 0;
    server + client
  }

  lemma RankIsNatural(p: Config, s: State)
    requires Inv(p, s)
    ensures Rank(p, s) >= 0
  {
    RoundsLeft(p.count - s.message, 2 * p.Size() + 4);
    RoundsLeft(s.remaining, 2 * p.Size() + 4);
  }

  /** Nothing spins here: every step brings the end closer. */
  lemma EveryStepCounts(p: Config, s: State, a: Action)
    requires Inv(p, s) && Enabled(p, s, a)
    ensures Rank(p, Apply(p, s, a)) < Rank(p, s)
  {
    RoundsLeft(p.count - s.message, 2 * p.Size() + 4);
    RoundsLeft(s.remaining, 2 * p.Size() + 4);
  }

  lemma SomeoneMoves(p: Config, s: State) returns (a: Action)
    requires Inv(p, s) && !BothDone(s) && (p.count == 0 || p.Size() <= p.capacity)
    ensures Enabled(p, s, a)
  {
    if ServerTurn(p, s) {
      a := match s.spc
           case SWriting(_) => ServerWrites(1)
           case SNotify => ServerNotifies
           case _ => ServerWaits;
    } else {
      a := match s.cpc
           case CWait => ClientWaits
           case CReading(_) => ClientReads(1)
           case _ => ClientNotifies;
    }
  }

  ghost function PipeSystem(p: Config): System<State> {
    System((s: State) => p.Valid() && Init(p, s), (s: State, s': State) => Next(p, s, s'),
           (s: State) => Inv(p, s), (s: State) => BothDone(s), (s: State) => if Rank(p, s) < 0 then 0 else Rank(p, s))
  }

  lemma StepKeepsInv(p: Config, s: State, a: Action)
    requires Inv(p, s) && Enabled(p, s, a)
    ensures Inv(p, Apply(p, s, a))
  {
    if Actor(a).Server? { ServerKeepsInv(p, s, a); } else { ClientKeepsInv(p, s, a); }
  }

  lemma PipeInductive(p: Config)
    ensures Inductive(PipeSystem(p))
  {
    var sys := PipeSystem(p);
    forall s, s' | sys.inv(s) && sys.next(s, s') ensures sys.inv(s') {
      var a :| Enabled(p, s, a) && s' == Apply(p, s, a);
      StepKeepsInv(p, s, a);
    }
  }

  lemma PipeImplementsTurns(p: Config)
    ensures Implements(Notified(p), PipeSystem(p).init, Client, 2 * p.count + 1)
    ensures SameSteps(Notified(p), PipeSystem(p))
  {
    var m, sys := Notified(p), PipeSystem(p);
    forall s, a | m.inv(s) ensures StepRefines(m, s, a) {
      if Enabled(p, s, a) {
        StepKeepsInv(p, s, a);
        EnabledStepRefines(p, s, a);
      }
    }
    forall s, s' | sys.next(s, s') ensures exists a :: m.step(s, a) == s' {
      var a :| Enabled(p, s, a) && s' == Apply(p, s, a);
      assert m.step(s, a) == s';
    }
  }

  /** For every schedule: a process waits, moves bytes and notifies only in its turn, the notifications
      alternate beginning with the client's, and when both are done the server has made `count` of them
      and the client one more. */
  lemma PipeTakesTurns(p: Config, s: State, schedule: seq<Action>)
    requires p.Valid() && Init(p, s)
    ensures forall i: nat :: i < |schedule| ==> InTurn(Notified(p), Client, s, schedule, i)
    ensures Alternates(HandOvers(Notified(p), s, schedule), Client)
    ensures BothDone(Outcome(Notified(p), s, schedule)) ==>
              && multiset(HandOvers(Notified(p), s, schedule))[Server] == p.count
              && multiset(HandOvers(Notified(p), s, schedule))[Client] == p.count + 1
  {
    PipeImplementsTurns(p);
    TakesTurns(Notified(p), PipeSystem(p).init, Client, 2 * p.count + 1, s, schedule);
  }

  /** Every run of the benchmark is such a schedule. */
  lemma PipeRunsTakeTurns(p: Config, run: seq<State>) returns (schedule: seq<Action>)
    requires IsRun(PipeSystem(p), run) && p.Valid() && Init(p, run[0])
    ensures RunInTurns(Notified(p), Client, run, schedule)
    ensures BothDone(run[|run| - 1]) ==> |HandOvers(Notified(p), run[0], schedule)| == 2 * p.count + 1
  {
    PipeImplementsTurns(p);
    schedule := RunsTakeTurns(Notified(p), PipeSystem(p), Client, 2 * p.count + 1, run);
  }

  /** No notification ever hits a signal that is still pending, so coalescing loses none; at most one
      signal is pending at a time, at most one message is in the pipe, and whenever the client answers, its
      buffer is the server's byte for byte. */
  lemma CoalescingLosesNothing(p: Config, s: State)
    requires Reachable(PipeSystem(p), s)
    ensures !(s.serverPending && s.clientPending)
    ensures s.spc.SNotify? ==> !s.clientPending
    ensures s.cpc.CFirstNotify? || s.cpc.CNotify? ==> !s.serverPending
    ensures |s.pipe| <= p.Size()
    ensures s.cpc.CNotify? ==> s.cBuffer == p.payload
    ensures forall k :: 0 <= k < |s.received| ==> s.received[k] == p.payload
    ensures BothDone(s) ==> |s.received| == p.count && !s.serverPending && !s.clientPending && s.pipe == []
  {
    PipeInductive(p);
    InvariantWhereverReachable(PipeSystem(p), s);
  }

  // ---------- all runs ----------

  ghost predicate Stuck(p: Config, s: State) {
    forall s' :: !Next(p, s, s')
  }

  /** A run that cannot be continued. */
  ghost predicate Maximal(p: Config, run: seq<State>) {
    IsRun(PipeSystem(p), run) && Stuck(p, run[|run| - 1])
  }

  lemma StepLowersRank(p: Config, s: State, s': State)
    requires Inv(p, s) && Next(p, s, s')
    ensures Inv(p, s') && 0 <= Rank(p, s') < Rank(p, s)
  {
    var a :| Enabled(p, s, a) && s' == Apply(p, s, a);
    StepKeepsInv(p, s, a);
    EveryStepCounts(p, s, a);
    RankIsNatural(p, s');
  }

  lemma {:induction false} RunsShorten(p: Config, run: seq<State>)
    requires IsRun(PipeSystem(p), run) && Inv(p, run[0])
    ensures Inv(p, run[|run| - 1]) && |run| - 1 + Rank(p, run[|run| - 1]) <= Rank(p, run[0])
  {
    if |run| > 1 {
      FrontIsRun(PipeSystem(p), run);
      RunsShorten(p, run[..|run| - 1]);
      assert Next(p, run[|run| - 2], run[|run| - 1]);
      StepLowersRank(p, run[|run| - 2], run[|run| - 1]);
    }
  }

  /** Every run ends: it has no more steps than the two loops have between them. */
  lemma EveryRunEnds(p: Config, run: seq<State>)
    requires p.Valid() && IsRun(PipeSystem(p), run) && Init(p, run[0])
    ensures |run| - 1 <= 2 * (p.count * (2 * p.Size() + 4) + 1)
  {
    PipeInductive(p);
    assert PipeSystem(p).init(run[0]);
    RunsShorten(p, run);
    RankIsNatural(p, run[|run| - 1]);
  }

  /** Any state can be run on until nothing moves any more. */
  lemma {:induction false} RunOn(p: Config, s: State) returns (run: seq<State>)
    requires Inv(p, s)
    ensures Maximal(p, run) && run[0] == s
    decreases Rank(p, s)
  {
    RankIsNatural(p, s);
    if s' :| Next(p, s, s') {
      StepLowersRank(p, s, s');
      var rest := RunOn(p, s');
      run := [s] + rest;
      Prepend(PipeSystem(p), s, rest);
    } else {
      run := [s];
    }
  }

  /** The server is filling the pipe for a client that will not read before it is notified. */
  ghost predicate Jammed(p: Config, s: State) {
    && p.Size() > p.capacity && p.count > 0
    && s.message == 0 && s.remaining == p.count && !s.clientPending
    && (s.spc.SFirstWait? || (s.spc.SWriting? && s.spc.got == |s.pipe|))
    && (s.cpc.CFirstNotify? || s.cpc.CWait?) && |s.pipe| <= p.capacity
  }

  lemma JammedStaysJammed(p: Config, s: State, s': State)
    requires Jammed(p, s) && (s.spc.SFirstWait? ==> s.pipe == []) && Next(p, s, s')
    ensures Jammed(p, s') && (s'.spc.SFirstWait? ==> s'.pipe == [])
  {
    var a :| Enabled(p, s, a) && s' == Apply(p, s, a);
  }

  lemma JammedNeverEnds(p: Config, run: seq<State>)
    requires p.Valid() && p.count > 0 && p.Size() > p.capacity && IsRun(PipeSystem(p), run) && Init(p, run[0])
    ensures !BothDone(run[|run| - 1])
  {
    var jam := PipeSystem(p).(inv := (s: State) => Jammed(p, s) && (s.spc.SFirstWait? ==> s.pipe == []));
    forall s, s' | jam.inv(s) && jam.next(s, s') ensures jam.inv(s') { JammedStaysJammed(p, s, s'); }
    SameRun(PipeSystem(p), jam, run);
    InvariantAlongRun(jam, run);
  }

  lemma FittingRunsComplete(p: Config, run: seq<State>)
    requires p.Valid() && (p.count == 0 || p.Size() <= p.capacity) && Maximal(p, run) && Init(p, run[0])
    ensures BothDone(run[|run| - 1])
  {
    PipeInductive(p);
    assert PipeSystem(p).init(run[0]);
    RunsShorten(p, run);
    var last := run[|run| - 1];
    if !BothDone(last) {
      var a := SomeoneMoves(p, last);
      assert Next(p, last, Apply(p, last, a));
    }
  }

  /** The benchmark completes, whatever the schedule and however its calls are cut, if and only if a message
      fits into the pipe or there is none to send: the server flushes a whole message before it notifies, and
      the client reads only after that. If it does not fit, no run completes. */
  lemma CompletesIffMessageFits(p: Config, start: State)
    requires p.Valid() && Init(p, start)
    ensures
      (forall run :: Maximal(p, run) && run[0] == start ==> BothDone(run[|run| - 1]))
      <==> p.count == 0 || p.Size() <= p.capacity
    ensures
      (exists run :: IsRun(PipeSystem(p), run) && run[0] == start && BothDone(run[|run| - 1]))
      <==> p.count == 0 || p.Size() <= p.capacity
  {
    PipeInductive(p);
    assert PipeSystem(p).init(start);
    var some := RunOn(p, start);
    if p.count == 0 || p.Size() <= p.capacity {
      forall run | Maximal(p, run) && run[0] == start ensures BothDone(run[|run| - 1]) { FittingRunsComplete(p, run); }
    } else {
      forall run | IsRun(PipeSystem(p), run) && run[0] == start ensures !BothDone(run[|run| - 1]) {
        JammedNeverEnds(p, run);
      }
    }
  }

  // ---------- the two programs ----------

  /** The pipe, the pending signals and both processes' variables, updated in place; each method is one
      system call. */
  class Processes {
    const p: Config
    const cBuffer: array<byte>
    var pipe: seq<byte>
    var serverPending: bool
    var clientPending: bool
    var spc: ServerPc
    var message: nat
    var cpc: ClientPc
    var remaining: nat
    ghost var received: seq<seq<byte>>

    constructor (p: Config)
      requires p.Valid()
      ensures this.p == p && Init(p, View()) && fresh(cBuffer)
    {
      this.p := p;
      cBuffer := new byte[p.Size()];
      pipe, serverPending, clientPending := [], false, false;
      spc, message, cpc, remaining, received := SFirstWait, 0, CFirstNotify, p.count, [];
    }

    ghost function View(): State
      reads this, cBuffer
    {
      State(pipe, serverPending, clientPending, spc, message, cpc, remaining, cBuffer[..], received)
    }

    method ServerWaits()
      requires Enabled(p, View(), Action.ServerWaits)
      modifies `serverPending, `message, `spc
      ensures View() == Apply(p, old(View()), Action.ServerWaits)
    {
      serverPending := false;
      if spc.SWait? { message := message + 1; }
      spc := if message < p.count then SWriting(0) else SDone;
    }

    method ServerWrites(n: nat)
      requires Enabled(p, View(), Action.ServerWrites(n))
      modifies `pipe, `spc
      ensures View() == Apply(p, old(View()), Action.ServerWrites(n))
    {
      var got := spc.got + n;
      pipe := pipe + p.payload[spc.got..got];
      spc := if got < p.Size() then SWriting(got) else SNotify;
    }

    method ServerNotifies()
      requires Enabled(p, View(), Action.ServerNotifies)
      modifies `clientPending, `spc
      ensures View() == Apply(p, old(View()), Action.ServerNotifies)
    {
      clientPending, spc := true, SWait;
    }

    method ClientWaits()
      requires Enabled(p, View(), Action.ClientWaits)
      modifies `clientPending, `cpc
      ensures View() == Apply(p, old(View()), Action.ClientWaits)
    {
      clientPending, cpc := false, CReading(0);
    }

    method ClientReads(n: nat)
      requires Enabled(p, View(), Action.ClientReads(n)) && cBuffer.Length == p.Size()
      modifies `pipe, `cpc, `received, cBuffer
      ensures View() == Apply(p, old(View()), Action.ClientReads(n))
    {
      var off, got := cpc.got, cpc.got + n;
      ghost var before := cBuffer[..];
      forall i | 0 <= i < n { cBuffer[off + i] := pipe[i]; }
      assert cBuffer[..] == Splice(before, off, pipe[..n]);
      pipe := pipe[n..];
      if got < p.Size() {
        cpc := CReading(got);
      } else {
        received := received + [cBuffer[..]];
        cpc := CNotify;
      }
    }

    method ClientNotifies()
      requires Enabled(p, View(), Action.ClientNotifies)
      modifies `serverPending, `remaining, `cpc
      ensures View() == Apply(p, old(View()), Action.ClientNotifies)
    {
      serverPending := true;
      if cpc.CNotify? && remaining > 0 { remaining := remaining - 1; }
      cpc := if remaining > 0 then CWait else CDone;
    }

    predicate Ready(a: Action)
      reads this
    {
      Enabled(p, State(pipe, serverPending, clientPending, spc, message, cpc, remaining, [], []), a)
    }

    /** The method of an action. */
    method Act(a: Action)
      requires Enabled(p, View(), a) && cBuffer.Length == p.Size()
      modifies this, cBuffer
      ensures View() == Apply(p, old(View()), a)
    {
      match a {
        case ServerWaits => ServerWaits();
        case ServerWrites(n) => ServerWrites(n);
        case ServerNotifies => ServerNotifies();
        case ClientWaits => ClientWaits();
        case ClientReads(n) => ClientReads(n);
        case ClientNotifies => ClientNotifies();
      }
    }

    /** Both programs under an arbitrary schedule. */
    method Run(schedule: seq<Action>)
      requires cBuffer.Length == p.Size()
      modifies this, cBuffer
      ensures View() == Outcome(Notified(p), old(View()), schedule)
    {
      ghost var start := View();
      var i := 0;
      while i < |schedule|
        invariant i <= |schedule| && View() == Outcome(Notified(p), start, schedule[..i])
      {
        OneMore(Notified(p), start, schedule, i);
        assert Ready(schedule[i]) == Enabled(p, View(), schedule[i]);
        if Ready(schedule[i]) { Act(schedule[i]); }
        i := i + 1;
      }
      assert schedule[..i] == schedule;
    }
  }
}
