/** Non-blocking transports: exactly when a client can still get all its bytes, and for exactly which
    parameters it can lose some. */
module EchoLost {
  import opened Books
  import opened Systems
  import opened Echo
  import opened EchoRunning
  import opened EchoLockstep
  import opened EchoProgress
  import opened EchoByteByByte

  /** The server has closed while the client is committed to a write: the write will fail, SIGPIPE
      will set the quit flag, and the client will leave without the rest of its responses. This rests on
      the assumption that a write fails as soon as the reader has closed: a TCP that accepts one more
      write would let such a client make another pass. */
  ghost predicate Lost(p: Config, st: State) {
    && st.s.phase.SDone? && ClientRead(st) < p.MaxBytes()
    && (match st.c.phase
        case CPolled(canRead, canWrite) =>
          !st.c.quit && !canRead && canWrite && st.c.books.outstandingBytes < p.Window()
        case CStamping(canWrite) => !st.c.quit && canWrite && st.c.books.outstandingBytes < p.Window()
        case CWriting(got, asked, _) => !st.c.quit && got < asked
        case CReading(_, _, _) => false
        case _ => st.c.quit)
  }

  lemma LostStaysLost(p: Config, st: State, st': State)
    requires RunningInv(p, st) && Lost(p, st) && Next(p, st, st')
    ensures Lost(p, st') && Remaining(p, st') == Remaining(p, st)
  {
    var a :| Enabled(p, st, a) && st' == Apply(p, st, a);
  }

  lemma ClientStaysUnlost(p: Config, st: State)
    requires RunningInv(p, st) && p.contract.NonBlocking? && !ClientWaits(p, st)
    requires ClientRead(st) < p.MaxBytes() && !Lost(p, st)
    ensures ClientEnabled(p, st, ClientChoice(p, st)) && !Lost(p, ClientApply(p, st, ClientChoice(p, st)))
  {}

  lemma ServerStaysUnlost(p: Config, st: State, a: ServerAction)
    requires RunningInv(p, st) && p.contract.NonBlocking? && ClientWaits(p, st) && ServerEnabled(p, st, a)
    requires ClientRead(st) < p.MaxBytes() && !Lost(p, st)
    ensures !Lost(p, ServerApply(p, st, a))
  {}

  lemma UnlostAdvances(p: Config, st: State) returns (st': State)
    requires EchoInv(p, st) && p.contract.NonBlocking? && ClientRead(st) < p.MaxBytes() && !Lost(p, st)
    ensures Next(p, st, st') && EchoInv(p, st') && Rank(p, st') < Rank(p, st) && !Lost(p, st')
  {
    if !ClientWaits(p, st) {
      var a;
      a, st' := ClientAdvances(p, st);
      ClientStaysUnlost(p, st);
    } else {
      SomeoneMoves(p, st);
      var a;
      a, st' := ServerAdvances(p, st);
      ServerStaysUnlost(p, st, a);
    }
    StepKeepsEcho(p, st, st');
  }

  lemma {:induction false} AllBytesAreReachable(p: Config, st: State) returns (run: seq<State>)
    requires EchoInv(p, st) && p.contract.NonBlocking? && !Lost(p, st)
    ensures IsRun(EchoSystem(p), run) && run[0] == st
    ensures ClientRead(run[|run| - 1]) >= p.MaxBytes()
    decreases Rank(p, st)
  {
    if ClientRead(st) >= p.MaxBytes() {
      run := [st];
    } else {
      var st' := UnlostAdvances(p, st);
      var rest := AllBytesAreReachable(p, st');
      run := [st] + rest;
      Prepend(EchoSystem(p), st, rest);
    }
  }

  /** A lost client never gets another byte. */
  lemma LostForever(p: Config, run: seq<State>)
    requires IsRun(EchoSystem(p), run) && EchoInv(p, run[0]) && Lost(p, run[0])
    ensures Lost(p, run[|run| - 1]) && Remaining(p, run[|run| - 1]) == Remaining(p, run[0])
  {
    var r := Remaining(p, run[0]);
    var sys := EchoSystem(p).(inv := (st: State) => EchoInv(p, st) && Lost(p, st) && Remaining(p, st) == r);
    forall st, st' | sys.inv(st) && sys.next(st, st') ensures sys.inv(st') {
      StepKeepsEcho(p, st, st');
      LostStaysLost(p, st, st');
    }
    SameRun(EchoSystem(p), sys, run);
    InvariantAlongRun(sys, run);
  }

  /** Exactly when TCP keeps its promise. In a reachable state of an uninterrupted run the client can still
      get all its bytes if and only if the server has not closed on it while it was committed to a write;
      and if it has, no byte ever moves again. */
  lemma TcpProgressExactly(p: Config, st: State)
    requires p.Valid() && !p.interruptible && p.contract.NonBlocking? && Reachable(EchoSystem(p), st)
    ensures
      (exists run :: IsRun(EchoSystem(p), run) && run[0] == st && ClientRead(run[|run| - 1]) >= p.MaxBytes())
      <==> !Lost(p, st)
    ensures Lost(p, st) ==>
              forall run :: IsRun(EchoSystem(p), run) && run[0] == st ==>
                Remaining(p, run[|run| - 1]) == Remaining(p, st)
  {
    EchoInvReached(p, st);
    if Lost(p, st) {
      forall run | IsRun(EchoSystem(p), run) && run[0] == st
        ensures ClientRead(run[|run| - 1]) < p.MaxBytes() && Remaining(p, run[|run| - 1]) == Remaining(p, st)
      {
        LostForever(p, run);
      }
    } else {
      var run := AllBytesAreReachable(p, st);
    }
  }

  // ---------- for which parameters ----------

  /** With all but one byte echoed, a client of a larger window sends the last byte, finds that it may
      write more, and before it does the server answers, counts itself finished and closes. */
  lemma LastByteLosesTheClient(p: Config, st0: State) returns (st: State)
    requires p.Valid() && p.contract.NonBlocking? && p.Window() > 1 && Settled(p, st0, p.MaxBytes() - 1)
    ensures Reachable(EchoSystem(p), st) && Lost(p, st)
  {
    st := ClientSendsOne(p, st0);
    st := ServerTakesOne(p, st);
    st := Takes(p, st, ByClient(ClientPoll(false, true)));
    st := ServerAnswersOne(p, st);
    st := Takes(p, st, ByServer(ServerExit));
  }

  /** With a window of one byte an unfinished client whose server has closed has no room to write. */
  ghost predicate NeverLost(p: Config, st: State) {
    EchoInv(p, st) && (st.c.quit ==> ClientRead(st) >= p.MaxBytes())
  }

  lemma NarrowWindowStaysUnlost(p: Config, st: State, st': State)
    requires p.Window() == 1 && NeverLost(p, st) && Next(p, st, st')
    ensures NeverLost(p, st')
  {
    StepKeepsEcho(p, st, st');
    var a :| Enabled(p, st, a) && st' == Apply(p, st, a);
  }

  lemma NarrowWindowIsUnlost(p: Config, st: State)
    requires p.Window() == 1 && NeverLost(p, st)
    ensures !Lost(p, st)
  {}

  /** For all request sizes, rates, counts and channel capacities: an uninterrupted TCP client can lose
      bytes if and only if its window is larger than one byte. */
  lemma ClientCanBeLostIffWindowIsWide(p: Config)
    requires p.Valid() && !p.interruptible && p.contract.NonBlocking?
    ensures (exists st :: Reachable(EchoSystem(p), st) && Lost(p, st)) <==> p.Window() > 1
  {
    if p.Window() > 1 {
      var before := ByteRounds(p, p.MaxBytes() - 1);
      var st := LastByteLosesTheClient(p, before);
    } else {
      var sys := EchoSystem(p).(inv := (st: State) => NeverLost(p, st));
      EchoInductive(p);
      forall st | sys.init(st) ensures sys.inv(st) { assert EchoSystem(p).init(st); }
      forall st, st' | sys.inv(st) && sys.next(st, st') ensures sys.inv(st') { NarrowWindowStaysUnlost(p, st, st'); }
      forall st | Reachable(EchoSystem(p), st) ensures !Lost(p, st) {
        SameReachable(EchoSystem(p), sys, st);
        InvariantWhereverReachable(sys, st);
        NarrowWindowIsUnlost(p, st);
      }
    }
  }
}
