/** The main results about the windowed echo protocol. */
module EchoTheorems {
  import opened Books
  import opened Systems
  import opened Echo
  import opened EchoRunning
  import opened EchoLockstep
  import opened EchoProgress

  // ---------- every run: any transport, any partial transfers, any interrupts ----------

  /** Conservation over both processes and both channels: what the client has written and not yet
      read lies in the request channel, in the server and in the response channel, and is never
      negative nor more than one window. Neither unsigned byte counter underflows. */
  lemma BytesAreConserved(p: Config, st: State)
    requires p.Valid() && Reachable(ByteSystem(p), st)
    ensures ClientWritten(st) - ClientRead(st)
         == |st.request| + (ServerRead(st) - ServerWritten(st)) + |st.response|
    ensures 0 <= ClientWritten(st) - ClientRead(st) <= p.Window()
    ensures 0 <= st.c.books.outstandingBytes <= p.Window()
    ensures 0 <= st.s.outstandingBytes
  {
    BytesInductive(p);
    InvariantWhereverReachable(ByteSystem(p), st);
    WindowBoundsServer(p, st);
  }

  /** The server never touches memory outside its buffer of one window, and never takes the branch
      that would make it ask for more. Nothing in the server says so: it follows from the window
      the client keeps. */
  lemma ServerBufferSuffices(p: Config, st: State)
    requires p.Valid() && Reachable(ByteSystem(p), st)
    ensures !st.s.overrun && |st.s.buffer| == p.Window()
    ensures st.s.outstandingBytes <= p.Window()
    ensures st.s.phase.SReading? ==> st.s.phase.got <= st.s.phase.asked == p.Window()
    ensures st.s.phase.SWriting? ==> st.s.phase.got <= st.s.phase.asked <= p.Window()
  {
    BytesInductive(p);
    InvariantWhereverReachable(ByteSystem(p), st);
  }

  /** The steps that move bytes are bounded in number in every run, whatever else happens in it. */
  lemma TransfersAreBounded(p: Config, run: seq<State>)
    requires p.Valid() && IsRun(ByteSystem(p), run) && Init(p, run[0])
    ensures Progress(ByteSystem(p), run) <= 6 * p.MaxBytes() - 4 + 6 * p.Window()
  {
    BytesInductive(p);
    ProgressIsBounded(ByteSystem(p), run);
    TotalsAreBounded(p, run[0]);
  }

  lemma StepKeepsDriftLedger(p: Config, st: State, st': State)
    requires p.Valid() && DriftLedger(st.c.books, p.size) && Next(p, st, st')
    ensures DriftLedger(st'.c.books, p.size)
  {
    var a :| Enabled(p, st, a) && st' == Apply(p, st, a);
    var b := st.c.books;
    match a {
      case ByClient(ca) =>
        match ca {
          case ClientReadReturns(t) => ReadKeepsDrift(b, p.size, st.c.phase.got, t);
          case ClientStamps(t, _) => StampKeepsDrift(b, p.size, p.rate, t);
          case ClientWriteReturns => WriteKeepsDrift(b, p.size, st.c.phase.got, st.c.phase.began);
          case _ =>
        }
      case _ =>
    }
  }

  /** The client's request counters may drift from its byte counters when transfers are partial;
      in every run the difference is exactly the spare bytes of the calls that split a request. When
      the stored counters agree and when they wrap is said in module EchoDrift. */
  lemma DriftIsAccountedFor(p: Config, st: State)
    requires p.Valid() && Reachable(ByteSystem(p), st)
    ensures
      var b := st.c.books;
      && b.outstandingBytes - p.size * (b.wholeWritten - b.numReqsRead) == b.spareWritten - b.spareRead
      && b.totalRead == p.size * b.numReqsRead + b.spareRead
  {
    var sys := ByteSystem(p).(inv := (s: State) => DriftLedger(s.c.books, p.size));
    forall s, s' | sys.inv(s) && sys.next(s, s') ensures sys.inv(s') { StepKeepsDriftLedger(p, s, s'); }
    var run :| IsRun(ByteSystem(p), run) && Init(p, run[0]) && run[|run| - 1] == st;
    SameRun(ByteSystem(p), sys, run);
    InvariantAlongRun(sys, run);
    DriftIsTheSpareBytes(st.c.books, p.size);
  }

  /** The server's loop run by itself from a given state. */
  ghost function ServerAlone(p: Config, start: State): System<State> {
    System((st: State) => st == start,
           (st: State, st': State) => exists a :: ServerEnabled(p, st, a) && st' == ServerApply(p, st, a),
           (st: State) => true, (st: State) => st.s.phase.SDone?, (st: State) => 0)
  }

  // ---------- blocking transports ----------

  /** Lockstep echo: at its loop head the server holds nothing or one full window, and each batch
      the client reads back equals byte for byte the batch it wrote. */
  lemma LockstepEcho(p: Config, st: State)
    requires p.Valid() && !p.interruptible && p.contract.Blocking? && Reachable(EchoSystem(p), st)
    ensures st.s.phase.SHead? ==> st.s.outstandingBytes == 0 || st.s.outstandingBytes == p.Window()
    ensures st.s.phase.SReading? && st.s.phase.got == st.s.phase.asked ==> st.s.buffer == p.payload
    ensures st.c.phase.CReading? && 0 < st.c.phase.asked == st.c.phase.got ==> st.c.readBuffer == p.payload
  {
    EchoInvReached(p, st);
    if st.c.phase.CReading? && 0 < st.c.phase.asked == st.c.phase.got { ClientBatchIsPayload(p, st); }
    if st.s.phase.SReading? && st.s.phase.got == st.s.phase.asked { ServerBatchIsPayload(p, st); }
  }

  /** When an uninterrupted client has left its loop, it has read exactly the whole batches that
      cover its requests, the server has written the same, and all `count` slots handed on hold
      finished latencies. */
  lemma ClientExitIsComplete(p: Config, st: State)
    requires p.Valid() && !p.interruptible && p.contract.Blocking? && Reachable(EchoSystem(p), st)
    requires st.c.phase.CDone?
    ensures st.c.books.totalRead == p.Window() * Batches(p)
    ensures st.s.phase.SDone? ==> st.s.totalWritten == p.Window() * Batches(p)
    ensures Reported(st.c.books, p.count) == p.count
    ensures forall j: nat :: j < p.count ==> Finished(st.c.books, j)
  {
    EchoInvReached(p, st);
    ExitTotals(p, st);
    ReportedLatencies(st.c.books, p.rate, p.count);
  }
}
