/** The shared-memory and memory-mapped-file benchmarks: a guard byte hands one region back and
    forth. Every byte of memset and memcpy is its own step. In the shared-memory segment the
    payload starts after the guard (offset 1); in the mapped file it starts at the guard (offset 0),
    so that filling it overwrites the guard. */
module GuardedMemory {
  import opened Arithmetic
  import opened Systems
  import opened Turns

  /** A byte of the region with a note of the store that put it there. */
  datatype Cell =
    | Fresh(letter: char)
    | Stored(letter: char, writer: Side, round: nat)

  datatype Config = Config(offset: nat, size: nat, count: nat)
  {
    ghost predicate Valid() {
      offset <= 1 && size > 0
    }
  }

  datatype ServerPc = SFirstWait | SFill(i: nat) | SNotify | SWait | SCopy(i: nat) | SDone
  datatype ClientPc = CStart | CWait | CCopy(i: nat) | CFill(i: nat) | CNotify | CDone

  /** The copies are history: the buffer after each completed memcpy. */
  datatype State = State(
    memory: seq<Cell>,
    spc: ServerPc, message: nat, sBuffer: seq<Cell>, sCopies: seq<seq<Cell>>,
    cpc: ClientPc, remaining: nat, cBuffer: seq<Cell>, cCopies: seq<seq<Cell>>)

  /** The letter that wakes the given side. */
  function Wakes(side: Side): char {
    if side.Server? then 's' else 'c'
  }

  ghost predicate Init(p: Config, s: State) {
    && |s.memory| == p.offset + p.size > 0 && s.memory[0].Fresh?
    && s.memory[0].letter != Wakes(Server) && s.memory[0].letter != Wakes(Client)
    && s.spc == SFirstWait && s.message == 0 && |s.sBuffer| == p.size && s.sCopies == []
    && s.cpc == CStart && s.remaining == p.count && |s.cBuffer| == p.size && s.cCopies == []
  }

  // ---------- one step of either process ----------

  function Put(b: seq<Cell>, i: nat, x: Cell): seq<Cell> {
    if i < |b| then b[i := x] else b
  }

  function Get(b: seq<Cell>, i: nat): Cell {
    if i < |b| then b[i] else Fresh('?')
  }

  function Guard(s: State): char {
    Get(s.memory, 0).letter
  }

  function NextMessage(p: Config, s: State): State {
    s.(spc := if s.message < p.count then SFill(0) else SDone)
  }

  function ServerStep(p: Config, s: State): State {
    match s.spc
    case SFirstWait => if Guard(s) == 's' then NextMessage(p, s) else s
    case SFill(i) =>
      s.(memory := Put(s.memory, p.offset + i, Stored('*', Server, s.message)),
         spc := if i + 1 < p.size then SFill(i + 1) else SNotify)
    case SNotify => s.(memory := Put(s.memory, 0, Stored('c', Server, s.message)), spc := SWait)
    case SWait => if Guard(s) == 's' then s.(spc := SCopy(0)) else s
    case SCopy(i) =>
      var copied := Put(s.sBuffer, i, Get(s.memory, p.offset + i));
      if i + 1 < p.size then s.(sBuffer := copied, spc := SCopy(i + 1))
      else NextMessage(p, s.(sBuffer := copied, sCopies := s.sCopies + [copied], message := s.message + 1))
    case SDone => s
  }

  function Round(p: Config, s: State): int {
    p.count - s.remaining
  }

  function NextRound(s: State): State {
    s.(cpc := if s.remaining > 0 then CWait else CDone)
  }

  function ClientStep(p: Config, s: State): State {
    match s.cpc
    case CStart => NextRound(s.(memory := Put(s.memory, 0, Fresh('s'))))
    case CWait => if Guard(s) == 'c' then s.(cpc := CCopy(0)) else s
    case CCopy(i) =>
      var copied := Put(s.cBuffer, i, Get(s.memory, p.offset + i));
      if i + 1 < p.size then s.(cBuffer := copied, cpc := CCopy(i + 1))
      else s.(cBuffer := copied, cCopies := s.cCopies + [copied], cpc := CFill(0))
    case CFill(i) =>
      s.(memory := Put(s.memory, p.offset + i, Stored('*', Client, Natural(Round(p, s)))),
         cpc := if i + 1 < p.size then CFill(i + 1) else CNotify)
    case CNotify =>
      NextRound(s.(memory := Put(s.memory, 0, Stored('s', Client, Natural(Round(p, s)))),
                   remaining := Natural(s.remaining - 1)))
    case CDone => s
  }

  function Natural(x: int): nat {
    if x < 0 then 0 else x
  }

  function Step(p: Config, s: State, side: Side): State {
    if side.Server? then ServerStep(p, s) else ClientStep(p, s)
  }

  ghost predicate Next(p: Config, s: State, s': State) {
    exists side :: s' == Step(p, s, side)
  }

  // ---------- the invariant ----------

  /** The first n payload bytes are the given side's fill of the given round. */
  ghost predicate Filled(p: Config, m: seq<Cell>, side: Side, round: nat, n: nat) {
    forall j :: p.offset <= j < p.offset + n && j < |m| ==> m[j] == Stored('*', side, round)
  }

  /** The given side has filled the payload and then stored the other side's letter in the guard. */
  ghost predicate Published(p: Config, m: seq<Cell>, side: Side, round: nat) {
    && |m| == p.offset + p.size > 0
    && m[0] == Stored(Wakes(Other(side)), side, round)
    && forall j :: 1 <= j < |m| ==> m[j] == Stored('*', side, round)
  }

  /** What a memcpy of a published payload yields: the fill, except that where the payload starts at
      the guard its first byte is the notify letter. */
  function Expected(p: Config, side: Side, round: nat): seq<Cell> {
    seq(p.size, i => Stored(if p.offset + i == 0 then Wakes(Other(side)) else '*', side, round))
  }

  ghost predicate Copied(p: Config, buffer: seq<Cell>, m: seq<Cell>, n: nat) {
    forall j :: 0 <= j < n && j < |buffer| && p.offset + j < |m| ==> buffer[j] == m[p.offset + j]
  }

  ghost predicate ServerTurn(p: Config, s: State) {
    && (s.cpc == if s.remaining > 0 then CWait else CDone)
    && (match s.spc
        case SFirstWait => s.message == Round(p, s) == 0 && Guard(s) == 's'
        case SFill(i) =>
          && s.message == Round(p, s) < p.count && i < p.size
          && Guard(s) != 'c' && Filled(p, s.memory, Server, s.message, i)
        case SNotify =>
          s.message == Round(p, s) < p.count && Guard(s) != 'c' && Filled(p, s.memory, Server, s.message, p.size)
        case SWait => s.message + 1 == Round(p, s) && Published(p, s.memory, Client, s.message)
        case SCopy(i) =>
          && s.message + 1 == Round(p, s) && Published(p, s.memory, Client, s.message)
          && i < p.size && Copied(p, s.sBuffer, s.memory, i)
        case SDone => s.message == Round(p, s) == p.count)
  }

  ghost predicate ClientTurn(p: Config, s: State) {
    if s.cpc == CStart then
      s.spc == SFirstWait && s.message == Round(p, s) == 0 && Guard(s) != 's' && Guard(s) != 'c'
    else
      && s.spc == SWait && s.message == Round(p, s) < p.count
      && (match s.cpc
          case CWait => Published(p, s.memory, Server, s.message)
          case CCopy(i) => Published(p, s.memory, Server, s.message) && i < p.size && Copied(p, s.cBuffer, s.memory, i)
          case CFill(i) => i < p.size && Guard(s) != 's' && Filled(p, s.memory, Client, s.message, i)
          case CNotify => Guard(s) != 's' && Filled(p, s.memory, Client, s.message, p.size)
          case _ => false)
  }

  ghost predicate CopiesAreReplies(p: Config, s: State) {
    && |s.sCopies| == s.message
    && |s.cCopies| == Round(p, s) + (if s.cpc.CFill? || s.cpc.CNotify? then 1 else 0)
    && (forall k :: 0 <= k < |s.sCopies| ==> s.sCopies[k] == Expected(p, Client, k))
    && (forall k :: 0 <= k < |s.cCopies| ==> s.cCopies[k] == Expected(p, Server, k))
    && (s.message > 0 && !s.spc.SCopy? ==> s.sBuffer == Expected(p, Client, s.message - 1))
    && (s.cpc.CFill? || s.cpc.CNotify? ==> s.cBuffer == Expected(p, Server, Natural(Round(p, s))))
  }

  ghost predicate Inv(p: Config, s: State) {
    && p.Valid() && s.remaining <= p.count
    && |s.memory| == p.offset + p.size && |s.sBuffer| == |s.cBuffer| == p.size
    && (ServerTurn(p, s) || ClientTurn(p, s))
    && CopiesAreReplies(p, s)
  }

  lemma WholeCopy(p: Config, buffer: seq<Cell>, m: seq<Cell>, side: Side, round: nat)
    requires p.Valid() && |buffer| == p.size && Published(p, m, side, round) && Copied(p, buffer, m, p.size)
    ensures buffer == Expected(p, side, round)
  {
    forall i | 0 <= i < p.size ensures buffer[i] == Expected(p, side, round)[i] {
      assert buffer[i] == m[p.offset + i];
    }
  }

  lemma ServerKeepsInv(p: Config, s: State)
    requires Inv(p, s)
    ensures Inv(p, ServerStep(p, s))
  {
    if ServerTurn(p, s) && s.spc.SCopy? && s.spc.i + 1 == p.size {
      WholeCopy(p, ServerStep(p, s).sBuffer, s.memory, Client, s.message);
    }
  }

  lemma ClientKeepsInv(p: Config, s: State)
    requires Inv(p, s)
    ensures Inv(p, ClientStep(p, s))
  {
    if ClientTurn(p, s) && s.cpc.CCopy? && s.cpc.i + 1 == p.size {
      WholeCopy(p, ClientStep(p, s).cBuffer, s.memory, Server, s.message);
    }
  }

  // ---------- refinement of the turn machine ----------

  /** Hand-overs so far, read off the program counters and loop variables. */
  function Abs(p: Config, s: State): Turns {
    Turns(Client,
          Natural((if s.cpc == CStart then 0 else 1) + Round(p, s)
                  + s.message + (if s.spc.SWait? || s.spc.SCopy? then 1 else 0)),
          2 * p.count + 1)
  }

  /** What the next step of a side is: spins and a finished process do nothing, memset and memcpy
      steps work on the region, guard stores hand the turn over. */
  function ServerLabel(s: State): Label {
    match s.spc
    case SFill(_) => Work(Server)
    case SCopy(_) => Work(Server)
    case SNotify => Pass(Server)
    case _ => Stutter
  }

  function ClientLabel(s: State): Label {
    match s.cpc
    case CCopy(_) => Work(Client)
    case CFill(_) => Work(Client)
    case CNotify => Pass(Client)
    case CStart => Pass(Client)
    case _ => Stutter
  }

  function LabelOf(s: State, side: Side): Label {
    if side.Server? then ServerLabel(s) else ClientLabel(s)
  }

  /** At byte granularity only the side that holds the turn touches the region. */
  lemma ServerStepRefines(p: Config, s: State)
    requires Inv(p, s)
    ensures Does(Abs(p, s), ServerLabel(s), Abs(p, ServerStep(p, s)))
  {}

  lemma ClientStepRefines(p: Config, s: State)
    requires Inv(p, s)
    ensures Does(Abs(p, s), ClientLabel(s), Abs(p, ClientStep(p, s)))
  {}

  // ---------- progress ----------

  /** Steps left to a process that never has to wait; one round takes 2 * size + 2 of them. */
  function ServerRank(p: Config, s: State): int {
    var left := (p.count - s.message) * (2 * p.size + 2);
    match s.spc
    case SFirstWait => left + 1
    case SFill(i) => left - i
    case SNotify => left - p.size
    case SWait => left - p.size - 1
    case SCopy(i) => left - p.size - 2 - i
    case SDone => 0
  }

  function ClientRank(p: Config, s: State): int {
    var left := s.remaining * (2 * p.size + 2);
    match s.cpc
    case CStart => left + 1
    case CWait => left
    case CCopy(i) => left - 1 - i
    case CFill(i) => left - 1 - p.size - i
    case CNotify => left - 1 - 2 * p.size
    case CDone => 0
  }

  ghost predicate BothDone(s: State) {
    s.spc.SDone? && s.cpc.CDone?
  }

  /** A step either leaves everything as it was, because it spins or its process is done, or brings
      its process one step closer to its end. */
  lemma ServerStepCounts(p: Config, s: State)
    requires Inv(p, s)
    ensures
      var s' := ServerStep(p, s);
      s' == s || (ServerRank(p, s') == ServerRank(p, s) - 1 && ClientRank(p, s') == ClientRank(p, s))
  {
    RoundsLeft(p.count - s.message, 2 * p.size + 2);
  }

  lemma ClientStepCounts(p: Config, s: State)
    requires Inv(p, s)
    ensures
      var s' := ClientStep(p, s);
      s' == s || (ClientRank(p, s') == ClientRank(p, s) - 1 && ServerRank(p, s') == ServerRank(p, s))
  {
    RoundsLeft(s.remaining, 2 * p.size + 2);
  }

  lemma RanksAreNatural(p: Config, s: State)
    requires Inv(p, s)
    ensures ServerRank(p, s) >= 0 && ClientRank(p, s) >= 0
  {
    RoundsLeft(p.count - s.message, 2 * p.size + 2);
    RoundsLeft(s.remaining, 2 * p.size + 2);
  }

  /** Unless both are done, the side that holds the turn is not spinning. */
  lemma HolderMoves(p: Config, s: State)
    requires Inv(p, s) && !BothDone(s)
    ensures Abs(p, s).Holder() == Server ==> ServerStep(p, s) != s
    ensures Abs(p, s).Holder() == Client ==> ClientStep(p, s) != s
  {}

  function Rank(p: Config, s: State): nat {
    Natural(ServerRank(p, s) + ClientRank(p, s))
  }

  ghost function Region(p: Config): System<State> {
    System((s: State) => p.Valid() && Init(p, s), (s: State, s': State) => Next(p, s, s'),
           (s: State) => Inv(p, s), (s: State) => BothDone(s),
           (s: State) => Rank(p, s))
  }

  lemma StepKeepsInv(p: Config, s: State, s': State)
    requires Inv(p, s) && Next(p, s, s')
    ensures Inv(p, s') && Rank(p, s') <= Rank(p, s)
  {
    var side :| s' == Step(p, s, side);
    if side.Server? {
      ServerKeepsInv(p, s);
      ServerStepCounts(p, s);
    } else {
      ClientKeepsInv(p, s);
      ClientStepCounts(p, s);
    }
  }

  lemma RegionInductive(p: Config)
    ensures Inductive(Region(p)) && NeverRegresses(Region(p))
  {
    var sys := Region(p);
    forall s, s' | sys.inv(s) && sys.next(s, s') ensures sys.inv(s') && sys.rank(s') <= sys.rank(s) {
      StepKeepsInv(p, s, s');
    }
  }

  // ---------- strict alternation ----------

  /** Either region with its two programs; a schedule says whose step is next. */
  ghost function Handshake(p: Config): Medium<State, Side> {
    Medium((s: State, side: Side) => Step(p, s, side), (s: State, side: Side) => LabelOf(s, side),
           (side: Side) => side, (s: State) => BothDone(s), (s: State) => Abs(p, s), (s: State) => Inv(p, s))
  }

  lemma StepImplements(p: Config, s: State, side: Side)
    requires Inv(p, s)
    ensures StepRefines(Handshake(p), s, side)
  {
    if side.Server? {
      ServerKeepsInv(p, s);
      ServerStepRefines(p, s);
    } else {
      ClientKeepsInv(p, s);
      ClientStepRefines(p, s);
    }
  }

  lemma RegionImplementsTurns(p: Config)
    ensures Implements(Handshake(p), Region(p).init, Client, 2 * p.count + 1)
    ensures SameSteps(Handshake(p), Region(p))
  {
    var m, sys := Handshake(p), Region(p);
    forall s, side | m.inv(s) ensures StepRefines(m, s, side) { StepImplements(p, s, side); }
    forall s, s' | sys.next(s, s') ensures exists side :: m.step(s, side) == s' {
      var side :| s' == Step(p, s, side);
      assert m.step(s, side) == s';
    }
  }

  /** What a step that is no work and no hand-over leaves alone. */
  lemma StutterTouchesNothing(p: Config, s: State, side: Side)
    requires LabelOf(s, side).Stutter?
    ensures
      var s' := Step(p, s, side);
      s'.memory == s.memory && s'.sBuffer == s.sBuffer && s'.cBuffer == s.cBuffer
  {}

  /** For every schedule, at byte granularity: the region is read into a buffer or changed only by the
      process whose turn it is, the hand-overs alternate beginning with the client's, and when both
      processes are done the server has handed over `count` times and the client once more. */
  lemma RegionTakesTurns(p: Config, s: State, schedule: seq<Side>)
    requires p.Valid() && Init(p, s)
    ensures forall i: nat :: i < |schedule| ==> InTurn(Handshake(p), Client, s, schedule, i)
    ensures Alternates(HandOvers(Handshake(p), s, schedule), Client)
    ensures BothDone(Outcome(Handshake(p), s, schedule)) ==>
              && multiset(HandOvers(Handshake(p), s, schedule))[Server] == p.count
              && multiset(HandOvers(Handshake(p), s, schedule))[Client] == p.count + 1
  {
    RegionImplementsTurns(p);
    TakesTurns(Handshake(p), Region(p).init, Client, 2 * p.count + 1, s, schedule);
  }

  /** Every run of either benchmark is such a schedule. */
  lemma RegionRunsTakeTurns(p: Config, run: seq<State>) returns (schedule: seq<Side>)
    requires IsRun(Region(p), run) && p.Valid() && Init(p, run[0])
    ensures RunInTurns(Handshake(p), Client, run, schedule)
    ensures BothDone(run[|run| - 1]) ==> |HandOvers(Handshake(p), run[0], schedule)| == 2 * p.count + 1
  {
    RegionImplementsTurns(p);
    schedule := RunsTakeTurns(Handshake(p), Region(p), Client, 2 * p.count + 1, run);
  }

  /** The same of the bytes themselves: whoever changes the region or copies from it holds the turn. */
  lemma OnlyTheHolderTouches(p: Config, s: State, schedule: seq<Side>, i: nat)
    requires p.Valid() && Init(p, s) && i < |schedule|
    ensures
      var before := Outcome(Handshake(p), s, schedule[..i]);
      var after := Outcome(Handshake(p), s, schedule[..i + 1]);
      after.memory != before.memory || after.sBuffer != before.sBuffer || after.cBuffer != before.cBuffer ==>
        schedule[i] == HolderAfter(Client, |HandOvers(Handshake(p), s, schedule[..i])|)
  {
    RegionTakesTurns(p, s, schedule);
    assert InTurn(Handshake(p), Client, s, schedule, i);
    OneMore(Handshake(p), s, schedule, i);
    if LabelAt(Handshake(p), s, schedule, i).Stutter? {
      StutterTouchesNothing(p, Outcome(Handshake(p), s, schedule[..i]), schedule[i]);
    }
  }

  lemma RealServerStepAdvances(p: Config, s: State)
    requires Inv(p, s) && ServerStep(p, s) != s
    ensures Rank(p, ServerStep(p, s)) < Rank(p, s)
  {
    ServerKeepsInv(p, s);
    RanksAreNatural(p, ServerStep(p, s));
    ServerStepCounts(p, s);
  }

  lemma RealClientStepAdvances(p: Config, s: State)
    requires Inv(p, s) && ClientStep(p, s) != s
    ensures Rank(p, ClientStep(p, s)) < Rank(p, s)
  {
    ClientKeepsInv(p, s);
    RanksAreNatural(p, ClientStep(p, s));
    ClientStepCounts(p, s);
  }

  lemma HolderAdvances(p: Config, s: State) returns (s': State)
    requires Inv(p, s) && !BothDone(s)
    ensures Next(p, s, s') && Rank(p, s') < Rank(p, s)
  {
    HolderMoves(p, s);
    if Abs(p, s).Holder() == Server { RealServerStepAdvances(p, s); } else { RealClientStepAdvances(p, s); }
    s' := Step(p, s, Abs(p, s).Holder());
  }

  lemma RegionAdvances(p: Config)
    ensures Advances(Region(p))
  {
    var sys := Region(p);
    forall s | sys.inv(s) && !sys.done(s) ensures exists s' :: sys.next(s, s') && sys.rank(s') < sys.rank(s) {
      var s' := HolderAdvances(p, s);
      assert sys.next(s, s');
    }
  }

  /** Both loops finish: from every reachable state some process can take a step that is not a spin
      until both are done, and a run has no more such steps than the two loops together. */
  lemma RegionFinishes(p: Config, s: State) returns (run: seq<State>)
    requires Reachable(Region(p), s)
    ensures IsRun(Region(p), run) && run[0] == s && BothDone(run[|run| - 1])
  {
    RegionInductive(p);
    RegionAdvances(p);
    InvariantWhereverReachable(Region(p), s);
    run := CanFinish(Region(p), s);
  }

  /** Under every schedule that leaves neither process out for ever, both loops end. */
  lemma SpinningEnds(p: Config, order: nat -> Side, states: nat -> State)
    requires p.Valid() && Init(p, states(0)) && Unfolds(Handshake(p), order, states) && Fair(Handshake(p), order)
    ensures exists i: nat :: BothDone(states(i))
  {
    var m := Handshake(p);
    forall s, side | m.inv(s)
      ensures m.inv(m.step(s, side)) && (m.step(s, side) == s || Rank(p, m.step(s, side)) < Rank(p, s))
    {
      StepImplements(p, s, side);
      if side.Server? && m.step(s, side) != s { RealServerStepAdvances(p, s); }
      if side.Client? && m.step(s, side) != s { RealClientStepAdvances(p, s); }
    }
    forall s | m.inv(s) && !m.done(s) ensures exists side :: Urgent(m, s, side) {
      HolderMoves(p, s);
      assert Urgent(m, s, Abs(p, s).Holder());
    }
    FairSchedulesFinish(m, (s: State) => Rank(p, s), order, states);
  }

  lemma InitRank(p: Config, s: State)
    requires p.Valid() && Init(p, s)
    ensures ServerRank(p, s) + ClientRank(p, s) == 2 * (p.count * (2 * p.size + 2) + 1) >= 0
  {
    RoundsLeft(p.count, 2 * p.size + 2);
  }

  lemma StepsAreBounded(p: Config, run: seq<State>)
    requires IsRun(Region(p), run) && p.Valid() && Init(p, run[0])
    ensures Progress(Region(p), run) <= 2 * (p.count * (2 * p.size + 2) + 1)
  {
    RegionInductive(p);
    ProgressIsBounded(Region(p), run);
    InitRank(p, run[0]);
  }

  /** In every reachable state the k-th copy of each side is exactly what the other side stored in
      round k: its fill, except that in the mapped file the first byte is the notify letter; so are the
      buffers themselves once they have been filled. The two
      sides' completed rounds never differ by more than one, and when both are done they are `count`. */
  lemma CopiesMatchFills(p: Config, s: State)
    requires Reachable(Region(p), s)
    ensures forall k :: 0 <= k < |s.cCopies| ==> s.cCopies[k] == Expected(p, Server, k)
    ensures forall k :: 0 <= k < |s.sCopies| ==> s.sCopies[k] == Expected(p, Client, k)
    ensures forall k: nat, i: nat :: k < |s.cCopies| && i < p.size ==>
              |s.cCopies[k]| == p.size &&
              s.cCopies[k][i] == Stored(if p.offset == 0 && i == 0 then 'c' else '*', Server, k)
    ensures forall k: nat, i: nat :: k < |s.sCopies| && i < p.size ==>
              |s.sCopies[k]| == p.size &&
              s.sCopies[k][i] == Stored(if p.offset == 0 && i == 0 then 's' else '*', Client, k)
    ensures s.message > 0 && !s.spc.SCopy? ==> s.sBuffer == Expected(p, Client, s.message - 1)
    ensures s.cpc.CFill? || s.cpc.CNotify? ==> s.cBuffer == Expected(p, Server, Natural(Round(p, s)))
    ensures s.message <= Round(p, s) <= s.message + 1
    ensures BothDone(s) ==> |s.sCopies| == |s.cCopies| == p.count && Abs(p, s).passes == Abs(p, s).total
  {
    RegionInductive(p);
    InvariantWhereverReachable(Region(p), s);
    forall k: nat, i: nat | k < |s.cCopies| && i < p.size
      ensures |s.cCopies[k]| == p.size
      ensures s.cCopies[k][i] == Stored(if p.offset == 0 && i == 0 then 'c' else '*', Server, k)
    {
      LetterAt(p, Server, k, i);
    }
    forall k: nat, i: nat | k < |s.sCopies| && i < p.size
      ensures |s.sCopies[k]| == p.size
      ensures s.sCopies[k][i] == Stored(if p.offset == 0 && i == 0 then 's' else '*', Client, k)
    {
      LetterAt(p, Client, k, i);
    }
  }

  lemma LetterAt(p: Config, side: Side, k: nat, i: nat)
    ensures |Expected(p, side, k)| == p.size
    ensures i < p.size ==>
              Expected(p, side, k)[i] ==
              Stored(if p.offset == 0 && i == 0 then (if side.Server? then 'c' else 's') else '*', side, k)
  {
    if i < p.size {
      var first := p.offset + i == 0;
      assert first == (p.offset == 0 && i == 0);
      assert Expected(p, side, k)[i] == Stored(if first then Wakes(Other(side)) else '*', side, k);
    }
  }
}
