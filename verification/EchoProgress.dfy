/** Progress of the echo protocol: no two processes ever wait for each other, the bytes of a run
    are bounded, and both loops can always be brought to their end. */
module EchoProgress {
  import opened Books
  import opened Systems
  import opened Echo
  import opened EchoRunning
  import opened EchoLockstep

  /** The bytes that can still move. */
  ghost function Remaining(p: Config, st: State): int {
    6 * p.MaxBytes() - 4 + 6 * p.Window() - ClientWritten(st) - ServerRead(st) - ServerWritten(st) - ClientRead(st)
  }

  /** No regime moves more than these totals. */
  lemma TotalsAreBounded(p: Config, st: State)
    requires BytesInv(p, st)
    ensures ServerWritten(st) <= p.MaxBytes() - 1 + p.Window()
    ensures ClientRead(st) <= p.MaxBytes() - 1 + p.Window()
    ensures ServerRead(st) <= ClientWritten(st) <= p.MaxBytes() - 1 + 2 * p.Window()
    ensures Remaining(p, st) >= 0
  {}

  ghost predicate MovesBytes(a: Action) {
    match a
    case ByClient(ca) => ca.ClientReads? || ca.ClientWrites?
    case ByServer(sa) => sa.ServerReads? || sa.ServerWrites?
    case _ => false
  }

  lemma RemainingFallsByClient(p: Config, st: State, a: ClientAction)
    requires BytesInv(p, st) && ClientEnabled(p, st, a)
    ensures
      var r' := Remaining(p, ClientApply(p, st, a));
      if a.ClientReads? || a.ClientWrites? then r' < Remaining(p, st) else r' == Remaining(p, st)
  {}

  lemma RemainingFallsByServer(p: Config, st: State, a: ServerAction)
    requires BytesInv(p, st) && ServerEnabled(p, st, a)
    ensures
      var r' := Remaining(p, ServerApply(p, st, a));
      if a.ServerReads? || a.ServerWrites? then r' < Remaining(p, st) else r' == Remaining(p, st)
  {}

  ghost function ClientRank(p: Config, c: Client): nat {
    match c.phase
    case CDone => 0
    case CHead => if ClientMustExit(p, c) then 1 else 5
    case CWriting(got, _, _) => if got == 0 then 2 else 6
    case CStamping(canWrite) => if canWrite && c.books.outstandingBytes < p.Window() && !c.quit then 3 else 6
    case CReading(got, asked, _) => if got == 0 && asked > 0 then 3 else 7
    case CPolled(canRead, canWrite) =>
      if c.quit then 8
      else if canRead then (if c.books.outstandingBytes > 0 then 4 else 8)
      else if canWrite && c.books.outstandingBytes < p.Window() then 4 else 8
  }

  ghost function ServerRank(p: Config, s: Server): nat {
    match s.phase
    case SDone => 0
    case SHead => if ServerMustExit(p, s) then 1 else 5
    case SWriting(got, asked) => if got == 0 && asked > 0 then 2 else 6
    case SReading(got, _, _) => if got == 0 then 3 else 7
    case SPolled(canRead, canWrite) =>
      if !s.quit && (canRead || (canWrite && s.outstandingBytes > 0)) then 4 else 8
  }

  /** The client can do nothing before the server moves. */
  ghost predicate ClientWaits(p: Config, st: State) {
    match st.c.phase
    case CDone => true
    case CHead =>
      && !ClientMustExit(p, st.c) && st.response == []
      && (st.c.books.outstandingBytes == p.Window() || !RequestRoom(p, st))
    case CReading(got, asked, _) =>
      p.contract.Blocking? && 0 < got < asked && st.response == [] && !st.s.phase.SDone?
    case CWriting(got, asked, _) => p.contract.Blocking? && 0 < got < asked && !RequestRoom(p, st)
    case _ => false
  }

  /** The server can do nothing before the client moves. */
  ghost predicate ServerWaits(p: Config, st: State) {
    match st.s.phase
    case SDone => true
    case SHead =>
      && !ServerMustExit(p, st.s) && st.request == []
      && (st.s.outstandingBytes == 0 || !ResponseRoom(p, st))
    case SReading(got, asked, _) => p.contract.Blocking? && 0 < got < asked && st.request == []
    case SWriting(got, asked) => p.contract.Blocking? && 0 < got < asked && !ResponseRoom(p, st)
    case _ => false
  }

  /** The next thing a client that is not waiting does; given the choice it reads before it writes. */
  ghost function ClientChoice(p: Config, st: State): ClientAction {
    var c := st.c;
    match c.phase
    case CHead => if ClientMustExit(p, c) then ClientExit else ClientPoll(st.response != [], st.response == [])
    case CPolled(_, _) => ClientDispatch(false)
    case CReading(got, asked, _) =>
      if got < asked && st.response != [] then ClientReads(1) else ClientReadReturns(c.books.clock)
    case CStamping(_) => ClientStamps(c.books.clock, c.books.clock)
    case CWriting(got, asked, _) =>
      if got < asked && RequestRoom(p, st) && !st.s.phase.SDone? then ClientWrites(1) else ClientWriteReturns
    case CDone => ClientExit
  }

  ghost function ServerChoice(p: Config, st: State): ServerAction {
    var s := st.s;
    match s.phase
    case SHead => if ServerMustExit(p, s) then ServerExit else ServerPoll(st.request != [], st.request == [])
    case SPolled(_, _) => ServerDispatch(false)
    case SReading(got, asked, _) => if got < asked && st.request != [] then ServerReads(1) else ServerReadReturns
    case SWriting(got, asked) =>
      if got < asked && ResponseRoom(p, st) && !st.c.phase.CDone? then ServerWrites(1) else ServerWriteReturns
    case SDone => ServerExit
  }

  lemma ClientChoiceEnabled(p: Config, st: State)
    requires RunningInv(p, st) && !ClientWaits(p, st)
    ensures ClientEnabled(p, st, ClientChoice(p, st))
  {}

  lemma ServerChoiceEnabled(p: Config, st: State)
    requires RunningInv(p, st) && !ServerWaits(p, st)
    ensures ServerEnabled(p, st, ServerChoice(p, st))
  {}

  lemma ClientChoiceRanks(p: Config, st: State)
    requires RunningInv(p, st) && !ClientWaits(p, st) && ClientEnabled(p, st, ClientChoice(p, st))
    ensures
      var a := ClientChoice(p, st);
      !MovesBytes(ByClient(a)) ==> ClientRank(p, ClientApply(p, st, a).c) < ClientRank(p, st.c)
  {}

  lemma ServerChoiceRanks(p: Config, st: State)
    requires RunningInv(p, st) && !ServerWaits(p, st) && ServerEnabled(p, st, ServerChoice(p, st))
    ensures
      var a := ServerChoice(p, st);
      !MovesBytes(ByServer(a)) ==> ServerRank(p, ServerApply(p, st, a).s) < ServerRank(p, st.s)
  {}

  /** The two processes never wait for each other. */
  lemma SomeoneMoves(p: Config, st: State)
    requires RunningInv(p, st) && (p.contract.NonBlocking? || StepInv(p, st))
    requires !(st.c.phase.CDone? && st.s.phase.SDone?)
    ensures !ClientWaits(p, st) || !ServerWaits(p, st)
  {}

  // ---------- termination of uninterrupted runs ----------

  ghost predicate EchoInv(p: Config, st: State) {
    RunningInv(p, st) && (p.contract.Blocking? ==> BlockingInv(p, st))
  }

  ghost predicate BothDone(st: State) {
    st.c.phase.CDone? && st.s.phase.SDone?
  }

  ghost function Rank(p: Config, st: State): nat {
    var r := 9 * Remaining(p, st) + ClientRank(p, st.c) + ServerRank(p, st.s);
    if r < 0 then 0 else r
  }

  /** The protocol as a transition system, started in any of its initial states. */
  ghost function EchoSystem(p: Config): System<State> {
    System(st => p.Valid() && Init(p, st), (st, st') => Next(p, st, st'),
           st => EchoInv(p, st), st => BothDone(st), st => Rank(p, st))
  }

  lemma StepKeepsEcho(p: Config, st: State, st': State)
    requires EchoInv(p, st) && Next(p, st, st')
    ensures EchoInv(p, st')
  {
    var a :| Enabled(p, st, a) && st' == Apply(p, st, a);
    StepKeepsRunning(p, st, a);
    if p.contract.Blocking? { StepKeepsBlocking(p, st, st'); }
  }

  lemma EchoInductive(p: Config)
    requires !p.interruptible
    ensures Inductive(EchoSystem(p))
  {
    var sys := EchoSystem(p);
    forall st | sys.init(st) ensures sys.inv(st) {
      InitRunning(p, st);
      if p.contract.Blocking? { InitBlocking(p, st); }
    }
    forall st, st' | sys.inv(st) && sys.next(st, st') ensures sys.inv(st') {
      StepKeepsEcho(p, st, st');
    }
  }

  lemma LowerRank(p: Config, st: State, st': State)
    requires BytesInv(p, st) && BytesInv(p, st')
    requires st'.s == st.s || st'.c == st.c
    requires
      || Remaining(p, st') < Remaining(p, st)
      || (Remaining(p, st') == Remaining(p, st) &&
          ClientRank(p, st'.c) + ServerRank(p, st'.s) < ClientRank(p, st.c) + ServerRank(p, st.s))
    ensures Rank(p, st') < Rank(p, st)
  {
    TotalsAreBounded(p, st');
  }

  lemma EchoInvReached(p: Config, st: State)
    requires !p.interruptible && Reachable(EchoSystem(p), st)
    ensures EchoInv(p, st)
  {
    EchoInductive(p);
    InvariantWhereverReachable(EchoSystem(p), st);
  }

  lemma ClientMove(p: Config, st: State) returns (a: ClientAction, st': State)
    requires RunningInv(p, st) && !ClientWaits(p, st)
    ensures a == ClientChoice(p, st) && ClientEnabled(p, st, a) && st' == ClientApply(p, st, a) && st'.s == st.s
    ensures a.ClientReads? || a.ClientWrites? || ClientRank(p, st'.c) < ClientRank(p, st.c)
  {
    a := ClientChoice(p, st);
    ClientChoiceEnabled(p, st);
    ClientChoiceRanks(p, st);
    st' := ClientApply(p, st, a);
  }

  lemma ClientAdvances(p: Config, st: State) returns (a: ClientAction, st': State)
    requires RunningInv(p, st) && !ClientWaits(p, st)
    ensures a == ClientChoice(p, st) && ClientEnabled(p, st, a) && st' == ClientApply(p, st, a)
    ensures Next(p, st, st') && Rank(p, st') < Rank(p, st)
  {
    a, st' := ClientMove(p, st);
    assert Enabled(p, st, ByClient(a)) && st' == Apply(p, st, ByClient(a));
    StepKeepsBytes(p, st, st');
    RemainingFallsByClient(p, st, a);
    LowerRank(p, st, st');
  }

  lemma ServerMove(p: Config, st: State) returns (a: ServerAction, st': State)
    requires RunningInv(p, st) && !ServerWaits(p, st)
    ensures a == ServerChoice(p, st) && ServerEnabled(p, st, a) && st' == ServerApply(p, st, a) && st'.c == st.c
    ensures a.ServerReads? || a.ServerWrites? || ServerRank(p, st'.s) < ServerRank(p, st.s)
  {
    a := ServerChoice(p, st);
    ServerChoiceEnabled(p, st);
    ServerChoiceRanks(p, st);
    st' := ServerApply(p, st, a);
  }

  lemma ServerAdvances(p: Config, st: State) returns (a: ServerAction, st': State)
    requires RunningInv(p, st) && !ServerWaits(p, st)
    ensures a == ServerChoice(p, st) && ServerEnabled(p, st, a) && st' == ServerApply(p, st, a)
    ensures Next(p, st, st') && Rank(p, st') < Rank(p, st)
  {
    a, st' := ServerMove(p, st);
    assert Enabled(p, st, ByServer(a)) && st' == Apply(p, st, ByServer(a));
    StepKeepsBytes(p, st, st');
    RemainingFallsByServer(p, st, a);
    LowerRank(p, st, st');
  }

  lemma EchoAdvances(p: Config)
    requires !p.interruptible
    ensures Advances(EchoSystem(p))
  {
    var sys := EchoSystem(p);
    forall st | sys.inv(st) && !sys.done(st) ensures exists st' :: sys.next(st, st') && sys.rank(st') < sys.rank(st) {
      SomeoneMoves(p, st);
      var st';
      if !ClientWaits(p, st) {
        var a;
        a, st' := ClientAdvances(p, st);
      } else {
        var a;
        a, st' := ServerAdvances(p, st);
      }
      assert sys.next(st, st');
    }
  }

  /** No reachable state of an uninterrupted run is a dead end: over either kind of transport both loops
      can still be run to their end. (Module EchoTermination shows that all fair runs get there.) */
  lemma EchoCanAlwaysFinish(p: Config, st: State) returns (run: seq<State>)
    requires p.Valid() && !p.interruptible && Reachable(EchoSystem(p), st)
    ensures IsRun(EchoSystem(p), run) && run[0] == st && BothDone(run[|run| - 1])
  {
    EchoInductive(p);
    EchoAdvances(p);
    InvariantWhereverReachable(EchoSystem(p), st);
    run := CanFinish(EchoSystem(p), st);
  }

  /** In every reachable state of an uninterrupted run in which not both have left their loops, a
      process that is not waiting has a step that moves bytes or brings it closer to such a step. */
  lemma NeverBothStuck(p: Config, st: State)
    requires p.Valid() && !p.interruptible && Reachable(EchoSystem(p), st) && !BothDone(st)
    ensures !ClientWaits(p, st) || !ServerWaits(p, st)
  {
    EchoInvReached(p, st);
    SomeoneMoves(p, st);
  }

  // ---------- what every run does, interrupted or not ----------

  ghost function ByteSystem(p: Config): System<State> {
    System(st => p.Valid() && Init(p, st), (st, st') => Next(p, st, st'), st => BytesInv(p, st),
           st => BothDone(st), st => if Remaining(p, st) < 0 then 0 else Remaining(p, st))
  }

  lemma StepNeverAddsWork(p: Config, st: State, st': State)
    requires BytesInv(p, st) && Next(p, st, st')
    ensures Remaining(p, st') <= Remaining(p, st)
  {
    var a :| Enabled(p, st, a) && st' == Apply(p, st, a);
    match a {
      case ByClient(ca) => RemainingFallsByClient(p, st, ca);
      case ByServer(sa) => RemainingFallsByServer(p, st, sa);
      case _ =>
    }
  }

  lemma BytesInductive(p: Config)
    ensures Inductive(ByteSystem(p)) && NeverRegresses(ByteSystem(p))
  {
    var sys := ByteSystem(p);
    forall st | sys.init(st) ensures sys.inv(st) { InitBytes(p, st); }
    forall st, st' | sys.inv(st) && sys.next(st, st') ensures sys.inv(st') && sys.rank(st') <= sys.rank(st) {
      StepKeepsBytes(p, st, st');
      StepNeverAddsWork(p, st, st');
    }
  }
}
