/** What becomes of a server whose client has left its loop, for whatever reason. */
module EchoStranded {
  import opened Books
  import opened Systems
  import opened Echo
  import opened EchoProgress
  import opened EchoTheorems

  /** Nothing is on the way to the server, it holds nothing that it could fail to send, no signal has
      reached it, and it still wants to send bytes. */
  ghost predicate Doomed(p: Config, st: State) {
    var s := st.s;
    && st.request == [] && !s.quit
    && (match s.phase
        case SDone => false
        case SWriting(got, asked) => got == asked && s.totalWritten + got < p.MaxBytes()
        case SReading(got, _, _) => got == 0 && s.outstandingBytes == 0 && s.totalWritten < p.MaxBytes()
        case _ => s.outstandingBytes == 0 && s.totalWritten < p.MaxBytes())
  }

  ghost predicate Left(p: Config, st: State) {
    BytesInv(p, st) && st.c.phase.CDone?
  }

  lemma DoomedStaysDoomed(p: Config, st: State, a: ServerAction)
    requires Left(p, st) && Doomed(p, st) && ServerEnabled(p, st, a)
    ensures Left(p, ServerApply(p, st, a)) && Doomed(p, ServerApply(p, st, a))
  {
    ServerKeepsBytes(p, st, a);
  }

  /** What a server does that is not doomed: it takes what is there, and then finds its writes fail. */
  ghost function WayOut(p: Config, st: State): ServerAction {
    var s := st.s;
    match s.phase
    case SHead => if ServerMustExit(p, s) then ServerExit else ServerPoll(st.request != [], st.request == [])
    case SPolled(_, _) => ServerDispatch(false)
    case SReading(got, asked, _) => if got < asked && st.request != [] then ServerReads(1) else ServerReadReturns
    case SWriting(_, _) => ServerWriteReturns
    case SDone => ServerExit
  }

  /** Steps to the end along the way out; a byte still to be taken counts for many. */
  ghost function StepsOut(p: Config, st: State): nat {
    var s := st.s;
    20 * |st.request| +
    (match s.phase
     case SDone => 0
     case SHead => if ServerMustExit(p, s) then 1 else if st.request == [] then 5 else 8
     case SPolled(canRead, canWrite) =>
       if canRead && st.request != [] then 7 else if !canRead && canWrite && s.outstandingBytes > 0 then 4 else 10
     case SReading(got, _, _) => if got == 0 && st.request != [] then 6 else 9
     case SWriting(got, asked) => if got < asked then 2 else 9)
  }

  lemma WayOutIsOpen(p: Config, st: State)
    requires Left(p, st) && !Doomed(p, st) && !st.s.phase.SDone?
    ensures ServerEnabled(p, st, WayOut(p, st))
  {}

  lemma WayOutEscapes(p: Config, st: State)
    requires Left(p, st) && !Doomed(p, st) && ServerEnabled(p, st, WayOut(p, st))
    ensures !Doomed(p, ServerApply(p, st, WayOut(p, st)))
  {}

  lemma WayOutShortens(p: Config, st: State)
    requires Left(p, st) && !Doomed(p, st) && ServerEnabled(p, st, WayOut(p, st))
    ensures StepsOut(p, ServerApply(p, st, WayOut(p, st))) < StepsOut(p, st)
  {}

  lemma {:induction false} EndIsReachable(p: Config, start: State, st: State) returns (run: seq<State>)
    requires Left(p, st) && !Doomed(p, st)
    ensures IsRun(ServerAlone(p, start), run) && run[0] == st && run[|run| - 1].s.phase.SDone?
    decreases StepsOut(p, st)
  {
    if st.s.phase.SDone? {
      run := [st];
    } else {
      WayOutIsOpen(p, st);
      WayOutEscapes(p, st);
      WayOutShortens(p, st);
      ServerKeepsBytes(p, st, WayOut(p, st));
      var rest := EndIsReachable(p, start, ServerApply(p, st, WayOut(p, st)));
      run := [st] + rest;
      Prepend(ServerAlone(p, start), st, rest);
    }
  }

  /** Exactly when a server whose client has left can still finish by itself: if and only if it is not
      doomed. A doomed server polls for ever until it is interrupted too. */
  lemma ServerFinishesIffNotDoomed(p: Config, st: State)
    requires Left(p, st)
    ensures
      (exists run: seq<State> :: IsRun(ServerAlone(p, st), run) && run[0] == st && run[|run| - 1].s.phase.SDone?)
      <==> !Doomed(p, st)
  {
    if Doomed(p, st) {
      var sys := ServerAlone(p, st).(inv := (s: State) => Left(p, s) && Doomed(p, s));
      forall s, s' | sys.inv(s) && sys.next(s, s') ensures sys.inv(s') {
        var a :| ServerEnabled(p, s, a) && s' == ServerApply(p, s, a);
        DoomedStaysDoomed(p, s, a);
      }
      forall run: seq<State> | IsRun(ServerAlone(p, st), run) && run[0] == st ensures !run[|run| - 1].s.phase.SDone? {
        SameRun(ServerAlone(p, st), sys, run);
        InvariantAlongRun(sys, run);
      }
    } else {
      var run := EndIsReachable(p, st, st);
    }
  }

  /** A client that is interrupted before its first write dooms the server. */
  lemma EarlyQuitDoomsTheServer(p: Config, start: State) returns (st: State)
    requires p.Valid() && p.interruptible && Init(p, start)
    ensures Reachable(ByteSystem(p), st) && Left(p, st) && Doomed(p, st)
  {
    var sys := ByteSystem(p);
    Started(sys, start);
    var quitting := start.(c := start.c.(quit := true));
    assert Enabled(p, start, InterruptClient) && quitting == Apply(p, start, InterruptClient);
    ReachableStep(sys, start, quitting);
    st := quitting.(c := quitting.c.(phase := CDone));
    assert Enabled(p, quitting, ByClient(ClientExit)) && st == Apply(p, quitting, ByClient(ClientExit));
    ReachableStep(sys, quitting, st);
    BytesInductive(p);
    InvariantWhereverReachable(sys, st);
  }
}
