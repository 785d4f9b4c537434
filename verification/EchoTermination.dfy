/** Both loops end: in every uninterrupted run, over either kind of transport, in which polls report
    all there is and neither process is left out for ever. */
module EchoTermination {
  import opened Books
  import opened Systems
  import opened Echo
  import opened EchoRunning
  import opened EchoLockstep
  import opened EchoProgress

  // ---------- every step counts, except for idle ones ----------

  /** A poll that reports nothing which leads to a transfer, or a call that returns without having
      moved anything although it could have. */
  ghost predicate Idle(p: Config, st: State, a: Action)
    requires Enabled(p, st, a)
  {
    var b, s := st.c.books, st.s;
    match a
    case ByClient(ClientPoll(canRead, canWrite)) =>
      !(canRead && b.outstandingBytes > 0) && !(canWrite && b.outstandingBytes < p.Window())
    case ByClient(ClientReadReturns(_)) => st.c.phase.got == 0 < st.c.phase.asked
    case ByClient(ClientWriteReturns) => st.c.phase.got == 0 && !s.phase.SDone?
    case ByServer(ServerPoll(canRead, canWrite)) => !canRead && !(canWrite && s.outstandingBytes > 0)
    case ByServer(ServerReadReturns) => s.phase.got == 0
    case ByServer(ServerWriteReturns) => s.phase.got == 0 < s.phase.asked
    case _ => false
  }

  /** Over blocking transports the only idle steps are polls. */
  lemma BlockingCallsAreNotIdle(p: Config, st: State, a: Action)
    requires RunningInv(p, st) && p.contract.Blocking? && Enabled(p, st, a) && Idle(p, st, a)
    ensures a.ByClient? ==> a.ca.ClientPoll?
    ensures a.ByServer? ==> a.sa.ServerPoll?
  {}

  lemma ClientStepRanks(p: Config, st: State, a: ClientAction)
    requires RunningInv(p, st) && ClientEnabled(p, st, a)
    ensures
      var st' := ClientApply(p, st, a);
      && ClientRank(p, st'.c) <= 8
      && (MovesBytes(ByClient(a)) ||
          if Idle(p, st, ByClient(a)) then ClientRank(p, st'.c) <= ClientRank(p, st.c) + 3
          else ClientRank(p, st'.c) < ClientRank(p, st.c))
  {}

  lemma ServerStepRanks(p: Config, st: State, a: ServerAction)
    requires RunningInv(p, st) && ServerEnabled(p, st, a)
    ensures
      var st' := ServerApply(p, st, a);
      && ServerRank(p, st'.s) <= 8
      && (MovesBytes(ByServer(a)) ||
          if Idle(p, st, ByServer(a)) then ServerRank(p, st'.s) <= ServerRank(p, st.s) + 3
          else ServerRank(p, st'.s) < ServerRank(p, st.s))
  {}

  lemma RankIs(p: Config, st: State)
    requires BytesInv(p, st)
    ensures Rank(p, st) == 9 * Remaining(p, st) + ClientRank(p, st.c) + ServerRank(p, st.s)
  {
    TotalsAreBounded(p, st);
  }

  lemma ClientStepCounts(p: Config, st: State, a: ClientAction)
    requires RunningInv(p, st) && ClientEnabled(p, st, a)
    ensures
      var st' := ClientApply(p, st, a);
      if Idle(p, st, ByClient(a)) then Rank(p, st') <= Rank(p, st) + 3 else Rank(p, st') < Rank(p, st)
  {
    StepKeepsRunning(p, st, ByClient(a));
    RankIs(p, st);
    RankIs(p, ClientApply(p, st, a));
    ClientStepRanks(p, st, a);
    RemainingFallsByClient(p, st, a);
    ClientTouchesItself(p, st, a);
  }

  lemma ClientTouchesItself(p: Config, st: State, a: ClientAction)
    requires p.size > 0 && ClientEnabled(p, st, a)
    ensures ClientApply(p, st, a).s == st.s
  {}

  lemma ServerTouchesItself(p: Config, st: State, a: ServerAction)
    requires ServerEnabled(p, st, a)
    ensures ServerApply(p, st, a).c == st.c
  {}

  lemma ServerStepCounts(p: Config, st: State, a: ServerAction)
    requires RunningInv(p, st) && ServerEnabled(p, st, a)
    ensures
      var st' := ServerApply(p, st, a);
      if Idle(p, st, ByServer(a)) then Rank(p, st') <= Rank(p, st) + 3 else Rank(p, st') < Rank(p, st)
  {
    StepKeepsRunning(p, st, ByServer(a));
    RankIs(p, st);
    RankIs(p, ServerApply(p, st, a));
    ServerStepRanks(p, st, a);
    RemainingFallsByServer(p, st, a);
    ServerTouchesItself(p, st, a);
  }

  lemma StepCounts(p: Config, st: State, a: Action)
    requires RunningInv(p, st) && Enabled(p, st, a)
    ensures
      var st' := Apply(p, st, a);
      if Idle(p, st, a) then Rank(p, st') <= Rank(p, st) + 3 else Rank(p, st') < Rank(p, st)
  {
    match a {
      case ByClient(ca) => ClientStepCounts(p, st, ca);
      case ByServer(sa) => ServerStepCounts(p, st, sa);
      case _ =>
    }
  }

  /** The states and actions of a run. */
  ghost predicate IsTrace(p: Config, states: seq<State>, actions: seq<Action>) {
    && p.Valid() && |states| == |actions| + 1
    && forall i :: 0 <= i < |actions| ==>
         Enabled(p, states[i], actions[i]) && states[i + 1] == Apply(p, states[i], actions[i])
  }

  ghost function IdleSteps(p: Config, states: seq<State>, actions: seq<Action>): nat
    requires IsTrace(p, states, actions)
  {
    if actions == [] then 0
    else
      var n := |actions| - 1;
      FrontIsTrace(p, states, actions);
      IdleSteps(p, states[..n + 1], actions[..n]) + (if Idle(p, states[n], actions[n]) then 1 else 0)
  }

  lemma FrontIsTrace(p: Config, states: seq<State>, actions: seq<Action>)
    requires IsTrace(p, states, actions) && actions != []
    ensures IsTrace(p, states[..|actions|], actions[..|actions| - 1])
  {
    var n := |actions| - 1;
    forall i | 0 <= i < n
      ensures
        && Enabled(p, states[..n + 1][i], actions[..n][i])
        && states[..n + 1][i + 1] == Apply(p, states[..n + 1][i], actions[..n][i])
    {
      assert Enabled(p, states[i], actions[i]);
    }
  }

  lemma {:induction false} TraceCounts(p: Config, states: seq<State>, actions: seq<Action>)
    requires IsTrace(p, states, actions) && RunningInv(p, states[0])
    ensures RunningInv(p, states[|actions|])
    ensures |actions| + Rank(p, states[|actions|]) <= Rank(p, states[0]) + 4 * IdleSteps(p, states, actions)
  {
    if actions != [] {
      var n := |actions| - 1;
      FrontIsTrace(p, states, actions);
      TraceCounts(p, states[..n + 1], actions[..n]);
      assert states[..n + 1][n] == states[n] && states[..n + 1][0] == states[0];
      assert Enabled(p, states[n], actions[n]) && states[n + 1] == Apply(p, states[n], actions[n]);
      StepKeepsRunning(p, states[n], actions[n]);
      StepCounts(p, states[n], actions[n]);
    }
  }

  /** Every uninterrupted run is as long as its idle polls make it: apart from at most four steps for
      each poll or call that finds nothing to do, the two loops together take a number of steps bounded
      by the bytes they have to move. */
  lemma RunsAreBounded(p: Config, states: seq<State>, actions: seq<Action>)
    requires !p.interruptible && IsTrace(p, states, actions) && Init(p, states[0])
    ensures |actions| <= 54 * (p.MaxBytes() + p.Window()) - 26 + 4 * IdleSteps(p, states, actions)
  {
    InitRunning(p, states[0]);
    TraceCounts(p, states, actions);
    TotalsAreBounded(p, states[0]);
  }

  // ---------- fair runs with truthful polls ----------

  /** Polls report all there is, and a call that does not block finds what there is. */
  ghost predicate Truthful(p: Config, st: State, a: Action)
    requires Enabled(p, st, a)
  {
    match a
    case ByClient(ClientPoll(canRead, canWrite)) =>
      (st.response != [] ==> canRead) && (|st.request| < p.requestCapacity ==> canWrite)
    case ByServer(ServerPoll(canRead, canWrite)) =>
      (st.request != [] ==> canRead) && (st.s.armed && |st.response| < p.responseCapacity ==> canWrite)
    case ByClient(ClientReadReturns(_)) => st.c.phase.got == 0 < st.c.phase.asked ==> st.response == []
    case ByClient(ClientWriteReturns) => st.c.phase.got == 0 ==> !RequestRoom(p, st) || st.s.phase.SDone?
    case ByServer(ServerReadReturns) => st.s.phase.got == 0 ==> st.request == []
    case ByServer(ServerWriteReturns) =>
      st.s.phase.got == 0 < st.s.phase.asked ==> !ResponseRoom(p, st) || st.c.phase.CDone?
    case _ => true
  }

  /** The client can do nothing but poll in vain, or waits inside a call, or has left its loop. */
  ghost predicate ClientQuiet(p: Config, st: State) {
    var c := st.c;
    match c.phase
    case CDone => true
    case CReading(got, asked, _) =>
      p.contract.Blocking? && 0 < got < asked && st.response == [] && !st.s.phase.SDone?
    case CWriting(got, asked, _) => p.contract.Blocking? && 0 < got < asked && !RequestRoom(p, st)
    case _ =>
      && ClientRank(p, c) >= 5 && !ClientMustExit(p, c)
      && st.response == [] && (c.books.outstandingBytes == p.Window() || |st.request| >= p.requestCapacity)
  }

  ghost predicate ServerQuiet(p: Config, st: State) {
    var s := st.s;
    match s.phase
    case SDone => true
    case SReading(got, asked, _) => p.contract.Blocking? && 0 < got < asked && st.request == [] && !st.c.phase.CDone?
    case SWriting(got, asked) =>
      || (p.contract.Blocking? && 0 < got < asked && !ResponseRoom(p, st))
      || (asked == 0 && st.request == [])
    case _ =>
      && ServerRank(p, s) >= 5 && !ServerMustExit(p, s)
      && st.request == [] && (s.outstandingBytes == 0 || (s.armed && |st.response| >= p.responseCapacity))
  }

  lemma BothQuietBothDone(p: Config, st: State)
    requires EchoInv(p, st) && ClientQuiet(p, st) && ServerQuiet(p, st)
    ensures BothDone(st)
  {}

  ghost function Flat(rank: nat): nat {
    if rank > 5 then 5 else rank
  }

  ghost function Tail(rank: nat): nat {
    if rank > 5 then rank - 5 else 0
  }

  lemma ClientMoves(p: Config, st: State, a: ClientAction)
    requires RunningInv(p, st) && ClientEnabled(p, st, a) && Truthful(p, st, ByClient(a)) && !MovesBytes(ByClient(a))
    ensures
      var st' := ClientApply(p, st, a);
      var r, r' := ClientRank(p, st.c), ClientRank(p, st'.c);
      || Flat(r') < Flat(r)
      || (Flat(r') == Flat(r) && (ClientQuiet(p, st') || (!ClientQuiet(p, st) && Tail(r') < Tail(r))))
  {}

  lemma ServerMoves(p: Config, st: State, a: ServerAction)
    requires RunningInv(p, st) && ServerEnabled(p, st, a) && Truthful(p, st, ByServer(a)) && !MovesBytes(ByServer(a))
    ensures
      var st' := ServerApply(p, st, a);
      var r, r' := ServerRank(p, st.s), ServerRank(p, st'.s);
      || Flat(r') < Flat(r)
      || (Flat(r') == Flat(r) && (ServerQuiet(p, st') || (!ServerQuiet(p, st) && Tail(r') < Tail(r))))
  {}

  lemma ServerLeavesClientQuiet(p: Config, st: State, a: ServerAction)
    requires RunningInv(p, st) && ServerEnabled(p, st, a) && !MovesBytes(ByServer(a)) && !a.ServerExit?
    ensures ClientQuiet(p, st) ==> ClientQuiet(p, ServerApply(p, st, a)) || ServerApply(p, st, a).s.phase.SDone?
  {}

  lemma ClientLeavesServerQuiet(p: Config, st: State, a: ClientAction)
    requires RunningInv(p, st) && ClientEnabled(p, st, a) && !MovesBytes(ByClient(a)) && !a.ClientExit?
    ensures ServerQuiet(p, st) ==> ServerQuiet(p, ClientApply(p, st, a)) || ClientApply(p, st, a).c.phase.CDone?
  {}

  /** A truthful poll leads to no transfer only when its process has to wait for the other one. */
  lemma TruthfulPollsAreIdleOnlyInWaiting(p: Config, st: State, a: Action)
    requires RunningInv(p, st) && Enabled(p, st, a) && Truthful(p, st, a) && Idle(p, st, a)
    ensures a.ByClient? ==> a.ca.ClientPoll? && ClientWaits(p, st)
    ensures a.ByServer? ==> a.sa.ServerPoll? && ServerWaits(p, st)
  {}

  /** The rank that vain polls do not raise. */
  ghost function FlatRank(p: Config, st: State): nat {
    var r := 9 * Remaining(p, st) + Flat(ClientRank(p, st.c)) + Flat(ServerRank(p, st.s));
    if r < 0 then 0 else r
  }

  lemma FlatRankIs(p: Config, st: State)
    requires BytesInv(p, st)
    ensures FlatRank(p, st) == 9 * Remaining(p, st) + Flat(ClientRank(p, st.c)) + Flat(ServerRank(p, st.s))
  {
    TotalsAreBounded(p, st);
  }

  lemma FlatRankChange(p: Config, st: State, st': State)
    requires BytesInv(p, st) && BytesInv(p, st')
    ensures FlatRank(p, st') - FlatRank(p, st) ==
            9 * (Remaining(p, st') - Remaining(p, st))
            + Flat(ClientRank(p, st'.c)) - Flat(ClientRank(p, st.c))
            + Flat(ServerRank(p, st'.s)) - Flat(ServerRank(p, st.s))
  {
    FlatRankIs(p, st);
    FlatRankIs(p, st');
  }

  lemma ClientFlatRank(p: Config, st: State, a: ClientAction)
    requires RunningInv(p, st) && ClientEnabled(p, st, a)
    ensures
      var st' := ClientApply(p, st, a);
      var r, r' := Flat(ClientRank(p, st.c)), Flat(ClientRank(p, st'.c));
      && st'.s == st.s
      && (if MovesBytes(ByClient(a)) then FlatRank(p, st') < FlatRank(p, st)
          else FlatRank(p, st') - FlatRank(p, st) == r' - r)
  {
    ClientKeepsBytes(p, st, a);
    FlatRankChange(p, st, ClientApply(p, st, a));
    RemainingFallsByClient(p, st, a);
    ClientTouchesItself(p, st, a);
  }

  lemma ServerFlatRank(p: Config, st: State, a: ServerAction)
    requires RunningInv(p, st) && ServerEnabled(p, st, a)
    ensures
      var st' := ServerApply(p, st, a);
      var r, r' := Flat(ServerRank(p, st.s)), Flat(ServerRank(p, st'.s));
      && st'.c == st.c
      && (if MovesBytes(ByServer(a)) then FlatRank(p, st') < FlatRank(p, st)
          else FlatRank(p, st') - FlatRank(p, st) == r' - r)
  {
    ServerKeepsBytes(p, st, a);
    FlatRankChange(p, st, ServerApply(p, st, a));
    RemainingFallsByServer(p, st, a);
    ServerTouchesItself(p, st, a);
  }

  /** A step that does not lower the rank is one in vain: it leaves the other process's prospects as they
      are and makes its own process quiet or brings it closer to that. */
  lemma ClientStepsInVain(p: Config, st: State, a: ClientAction)
    requires RunningInv(p, st) && ClientEnabled(p, st, a) && Truthful(p, st, ByClient(a))
    ensures
      var st' := ClientApply(p, st, a);
      var r, r' := ClientRank(p, st.c), ClientRank(p, st'.c);
      || FlatRank(p, st') < FlatRank(p, st)
      || (&& FlatRank(p, st') == FlatRank(p, st) && st'.s == st.s
          && (ClientQuiet(p, st') || (!ClientQuiet(p, st) && Tail(r') < Tail(r)))
          && (ServerQuiet(p, st) ==> ServerQuiet(p, st')))
  {
    ClientFlatRank(p, st, a);
    if !MovesBytes(ByClient(a)) {
      ClientMoves(p, st, a);
      ClientLeaves(p, st, a);
      if !a.ClientExit? { ClientLeavesServerQuiet(p, st, a); }
    }
  }

  lemma ClientLeaves(p: Config, st: State, a: ClientAction)
    requires RunningInv(p, st) && ClientEnabled(p, st, a)
    ensures ClientApply(p, st, a).c.phase.CDone? ==>
              Flat(ClientRank(p, ClientApply(p, st, a).c)) < Flat(ClientRank(p, st.c))
  {}

  lemma ServerLeaves(p: Config, st: State, a: ServerAction)
    requires RunningInv(p, st) && ServerEnabled(p, st, a)
    ensures ServerApply(p, st, a).s.phase.SDone? ==>
              Flat(ServerRank(p, ServerApply(p, st, a).s)) < Flat(ServerRank(p, st.s))
  {}

  lemma ServerStepsInVain(p: Config, st: State, a: ServerAction)
    requires RunningInv(p, st) && ServerEnabled(p, st, a) && Truthful(p, st, ByServer(a))
    ensures
      var st' := ServerApply(p, st, a);
      var r, r' := ServerRank(p, st.s), ServerRank(p, st'.s);
      || FlatRank(p, st') < FlatRank(p, st)
      || (&& FlatRank(p, st') == FlatRank(p, st) && st'.c == st.c
          && (ServerQuiet(p, st') || (!ServerQuiet(p, st) && Tail(r') < Tail(r)))
          && (ClientQuiet(p, st) ==> ClientQuiet(p, st')))
  {
    ServerFlatRank(p, st, a);
    if !MovesBytes(ByServer(a)) {
      ServerMoves(p, st, a);
      ServerLeaves(p, st, a);
      if !a.ServerExit? { ServerLeavesClientQuiet(p, st, a); }
    }
  }

  // ---------- endless runs ----------

  /** What happens at one moment: a process takes a step, or nothing happens. */
  datatype Moment = Pause | Takes(a: Action)

  ghost predicate Follows(p: Config, moments: nat -> Moment, states: nat -> State, i: nat) {
    match moments(i)
    case Pause => states(i + 1) == states(i)
    case Takes(a) =>
      p.Valid() && Enabled(p, states(i), a) && Truthful(p, states(i), a) && states(i + 1) == Apply(p, states(i), a)
  }

  /** A run that goes on for ever, with truthful polls; once both loops have ended it can only pause. */
  ghost predicate Endless(p: Config, moments: nat -> Moment, states: nat -> State) {
    forall i: nat :: Follows(p, moments, states, i)
  }

  ghost predicate ClientActs(m: Moment) {
    m.Takes? && m.a.ByClient?
  }

  ghost predicate ServerActs(m: Moment) {
    m.Takes? && m.a.ByServer?
  }

  ghost predicate ClientBlocked(p: Config, st: State) {
    forall a :: !ClientEnabled(p, st, a)
  }

  ghost predicate ServerBlocked(p: Config, st: State) {
    forall a :: !ServerEnabled(p, st, a)
  }

  /** Neither process is left out for ever: at every moment, each will still act or will be found
      blocked inside a call. */
  ghost predicate Fair(p: Config, moments: nat -> Moment, states: nat -> State) {
    forall i: nat :: ClientServed(p, moments, states, i) && ServerServed(p, moments, states, i)
  }

  ghost predicate ClientServed(p: Config, moments: nat -> Moment, states: nat -> State, i: nat) {
    exists j: nat :: j >= i && (ClientActs(moments(j)) || ClientBlocked(p, states(j)))
  }

  ghost predicate ServerServed(p: Config, moments: nat -> Moment, states: nat -> State, i: nat) {
    exists j: nat :: j >= i && (ServerActs(moments(j)) || ServerBlocked(p, states(j)))
  }

  lemma BlockedIsQuiet(p: Config, st: State)
    requires RunningInv(p, st)
    ensures ClientBlocked(p, st) ==> ClientQuiet(p, st)
    ensures ServerBlocked(p, st) ==> ServerQuiet(p, st)
  {
    if ClientBlocked(p, st) && !ClientQuiet(p, st) {
      if !ClientWaits(p, st) { ClientChoiceEnabled(p, st); } else { ClientPollsAtHead(p, st); }
    }
    if ServerBlocked(p, st) && !ServerQuiet(p, st) {
      if !ServerWaits(p, st) { ServerChoiceEnabled(p, st); } else { ServerPollsAtHead(p, st); }
    }
  }

  lemma ClientPollsAtHead(p: Config, st: State)
    requires st.c.phase.CHead? && !ClientMustExit(p, st.c)
    ensures ClientEnabled(p, st, ClientPoll(false, false))
  {}

  lemma ServerPollsAtHead(p: Config, st: State)
    requires st.s.phase.SHead? && !ServerMustExit(p, st.s)
    ensures ServerEnabled(p, st, ServerPoll(false, false))
  {}

  lemma {:induction false} EchoInvForEver(p: Config, moments: nat -> Moment, states: nat -> State, i: nat)
    requires p.Valid() && !p.interruptible && Endless(p, moments, states) && Init(p, states(0))
    ensures EchoInv(p, states(i))
  {
    if i == 0 {
      EchoInductive(p);
      assert EchoSystem(p).init(states(0));
    } else {
      EchoInvForEver(p, moments, states, i - 1);
      assert Follows(p, moments, states, i - 1);
      if moments(i - 1).Takes? { StepKeepsEcho(p, states(i - 1), states(i)); }
    }
  }

  ghost function ClientMoments(moments: nat -> Moment): nat -> bool {
    (i: nat) => ClientActs(moments(i))
  }

  ghost function ServerMoments(moments: nat -> Moment): nat -> bool {
    (i: nat) => ServerActs(moments(i))
  }

  ghost function QuietClient(p: Config): State -> bool {
    (st: State) => ClientQuiet(p, st)
  }

  ghost function QuietServer(p: Config): State -> bool {
    (st: State) => ServerQuiet(p, st)
  }

  ghost function ClientDistance(p: Config): State -> nat {
    (st: State) => Tail(ClientRank(p, st.c))
  }

  ghost function ServerDistance(p: Config): State -> nat {
    (st: State) => Tail(ServerRank(p, st.s))
  }

  ghost predicate LowestAt(p: Config, states: nat -> State, low: nat) {
    forall j: nat :: j >= low ==> FlatRank(p, states(j)) >= FlatRank(p, states(low))
  }

  lemma LowestMoment(p: Config, states: nat -> State) returns (low: nat)
    ensures LowestAt(p, states, low)
  {
    var ranks := (i: nat) => FlatRank(p, states(i));
    low := NeverUndercut(ranks, 0);
    forall j: nat | j >= low ensures FlatRank(p, states(j)) >= FlatRank(p, states(low)) {
      assert ranks(j) >= ranks(low);
    }
  }

  /** From the moment on at which the rank is lowest, every moment is in vain. */
  lemma InVain(p: Config, moments: nat -> Moment, states: nat -> State, low: nat, i: nat)
    requires p.Valid() && !p.interruptible && Endless(p, moments, states) && Init(p, states(0)) && low <= i
    requires LowestAt(p, states, low)
    requires FlatRank(p, states(i)) == FlatRank(p, states(low))
    ensures FlatRank(p, states(i + 1)) == FlatRank(p, states(low))
    ensures ClientQuiet(p, states(i)) ==> ClientQuiet(p, states(i + 1))
    ensures ServerQuiet(p, states(i)) ==> ServerQuiet(p, states(i + 1))
    ensures
      var d, d' := Tail(ClientRank(p, states(i).c)), Tail(ClientRank(p, states(i + 1).c));
      if ClientActs(moments(i)) then ClientQuiet(p, states(i + 1)) || d' < d else d' == d
    ensures
      var d, d' := Tail(ServerRank(p, states(i).s)), Tail(ServerRank(p, states(i + 1).s));
      if ServerActs(moments(i)) then ServerQuiet(p, states(i + 1)) || d' < d else d' == d
  {
    EchoInvForEver(p, moments, states, i);
    assert Follows(p, moments, states, i);
    assert FlatRank(p, states(i + 1)) >= FlatRank(p, states(low));
    match moments(i) {
      case Pause =>
      case Takes(a) =>
        match a {
          case ByClient(ca) => ClientStepsInVain(p, states(i), ca);
          case ByServer(sa) => ServerStepsInVain(p, states(i), sa);
          case _ =>
        }
    }
  }

  lemma {:induction false} LowestForEver(p: Config, moments: nat -> Moment, states: nat -> State, low: nat, i: nat)
    requires p.Valid() && !p.interruptible && Endless(p, moments, states) && Init(p, states(0)) && low <= i
    requires LowestAt(p, states, low)
    ensures FlatRank(p, states(i)) == FlatRank(p, states(low))
  {
    if i > low {
      LowestForEver(p, moments, states, low, i - 1);
      InVain(p, moments, states, low, i - 1);
    }
  }

  lemma ClientCalms(p: Config, moments: nat -> Moment, states: nat -> State, low: nat)
    requires p.Valid() && !p.interruptible && Endless(p, moments, states) && Init(p, states(0))
    requires Fair(p, moments, states) && LowestAt(p, states, low)
    ensures Calms(states, ClientMoments(moments), QuietClient(p), ClientDistance(p), low)
  {
    var acts, quiet, distance := ClientMoments(moments), QuietClient(p), ClientDistance(p);
    forall i: nat | i >= low
      ensures quiet(states(i)) ==> quiet(states(i + 1))
      ensures if acts(i) then quiet(states(i + 1)) || distance(states(i + 1)) < distance(states(i))
              else distance(states(i + 1)) <= distance(states(i))
      ensures ComesToRest(states, acts, quiet, i)
    {
      LowestForEver(p, moments, states, low, i);
      InVain(p, moments, states, low, i);
      assert ClientServed(p, moments, states, i);
      var j: nat :| j >= i && (ClientActs(moments(j)) || ClientBlocked(p, states(j)));
      EchoInvForEver(p, moments, states, j);
      BlockedIsQuiet(p, states(j));
      assert acts(j) || quiet(states(j));
    }
  }

  lemma ServerCalms(p: Config, moments: nat -> Moment, states: nat -> State, low: nat)
    requires p.Valid() && !p.interruptible && Endless(p, moments, states) && Init(p, states(0))
    requires Fair(p, moments, states) && LowestAt(p, states, low)
    ensures Calms(states, ServerMoments(moments), QuietServer(p), ServerDistance(p), low)
  {
    var acts, quiet, distance := ServerMoments(moments), QuietServer(p), ServerDistance(p);
    forall i: nat | i >= low
      ensures quiet(states(i)) ==> quiet(states(i + 1))
      ensures if acts(i) then quiet(states(i + 1)) || distance(states(i + 1)) < distance(states(i))
              else distance(states(i + 1)) <= distance(states(i))
      ensures ComesToRest(states, acts, quiet, i)
    {
      LowestForEver(p, moments, states, low, i);
      InVain(p, moments, states, low, i);
      assert ServerServed(p, moments, states, i);
      var j: nat :| j >= i && (ServerActs(moments(j)) || ServerBlocked(p, states(j)));
      EchoInvForEver(p, moments, states, j);
      BlockedIsQuiet(p, states(j));
      assert acts(j) || quiet(states(j));
    }
  }

  /** Termination. For all sizes, rates, counts and capacities, over blocking and non-blocking transports,
      every uninterrupted run with truthful polls in which neither process is left out for ever reaches a
      state in which both loops have ended; over blocking transports this includes the client's trailing
      write after its last read, which the server's close releases. */
  lemma FairRunsFinish(p: Config, moments: nat -> Moment, states: nat -> State)
    requires p.Valid() && !p.interruptible && Endless(p, moments, states) && Init(p, states(0))
    requires Fair(p, moments, states)
    ensures exists i: nat :: BothDone(states(i))
  {
    var low := LowestMoment(p, states);
    ClientCalms(p, moments, states, low);
    ServerCalms(p, moments, states, low);
    var i := BecomesQuiet(states, ClientMoments(moments), QuietClient(p), ClientDistance(p), low, low);
    var j := BecomesQuiet(states, ServerMoments(moments), QuietServer(p), ServerDistance(p), low, i);
    QuietForEver(states, ClientMoments(moments), QuietClient(p), ClientDistance(p), low, i, j);
    EchoInvForEver(p, moments, states, j);
    BothQuietBothDone(p, states(j));
  }
}
