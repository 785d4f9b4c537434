/** The client of the protocol keeps the books of its own passes, dated with the clock readings of its own
    steps: what module Latencies says of the books holds of the latencies it reports. */
module EchoPasses {
  import opened Arithmetic
  import opened Books
  import opened Latencies
  import opened Systems
  import opened Echo
  import opened EchoRunning
  import opened EchoLockstep
  import opened EchoProgress

  /** A state with the slots and the clock at the start, the client's finished passes and what is known of
      the one it is in. */
  datatype Watched = Watched(st: State, times: seq<nat>, clock: nat, passes: seq<Iteration>, pass: Iteration)

  const NO_PASS: Iteration := Iteration(false, 0, 0, 0, false, 0, 0)

  /** Reading and stamping are noted with the clock readings of those steps, a write with the time at which
      it began and the bytes it has moved when it returns. */
  ghost function Note(o: Watched, a: Action, st': State): Watched {
    match a
    case ByClient(ClientReadReturns(t)) =>
      var moved := if o.st.c.phase.CReading? then o.st.c.phase.got else 0;
      o.(st := st', pass := o.pass.(didRead := true, readMoved := moved, readTime := t))
    case ByClient(ClientStamps(t, began)) =>
      var pass := o.pass.(stampTime := t);
      if st'.c.phase.CWriting? then o.(st := st', pass := pass.(writeTime := began))
      else o.(st := st', passes := o.passes + [pass], pass := NO_PASS)
    case ByClient(ClientWriteReturns) =>
      var moved := if o.st.c.phase.CWriting? then o.st.c.phase.got else 0;
      o.(st := st', passes := o.passes + [o.pass.(didWrite := true, writeMoved := moved)], pass := NO_PASS)
    case _ => o.(st := st')
  }

  ghost predicate WatchedNext(p: Config, o: Watched, o': Watched) {
    p.Valid() && exists a :: Enabled(p, o.st, a) && o' == Note(o, a, Apply(p, o.st, a))
  }

  ghost function Before(p: Config, o: Watched): Books
    requires p.size > 0
  {
    IterateAll(Open(o.times, o.clock), p.size, p.rate, o.passes)
  }

  ghost predicate ReadSoFar(p: Config, b: Books, pass: Iteration)
    requires p.size > 0
  {
    pass.didRead ==> pass.readMoved <= b.outstandingBytes && b.clock <= pass.readTime < TWO_TO_64
  }

  /** The client's books are those of its finished passes and of the part of the current one that is done. */
  ghost predicate Noted(p: Config, o: Watched)
    requires p.size > 0
  {
    var b := Before(p, o);
    match o.st.c.phase
    case CStamping(_) =>
      !o.pass.didWrite && ReadSoFar(p, b, o.pass) && o.st.c.books == ReadPart(b, p.size, o.pass)
    case CWriting(got, asked, began) =>
      && !o.pass.didWrite && ReadSoFar(p, b, o.pass)
      && o.st.c.books == StampPart(b, p.size, p.rate, o.pass)
      && ReadPart(b, p.size, o.pass).clock <= o.pass.stampTime < TWO_TO_64 && o.pass.writeTime == began
      && o.st.c.books.outstandingBytes < p.Window()
    case _ => o.pass == NO_PASS && o.st.c.books == b
  }

  ghost predicate WatchedInv(p: Config, o: Watched) {
    && BytesInv(p, o.st) && Noted(p, o)
    && LegalRun(Open(o.times, o.clock), p.size, p.rate, o.passes)
    && TimelyRun(Open(o.times, o.clock), p.size, p.rate, o.passes)
    && |o.times| == p.count && o.clock < TWO_TO_64
  }

  lemma PassEnds(p: Config, o: Watched, pass: Iteration)
    requires p.Valid() && LegalRun(Open(o.times, o.clock), p.size, p.rate, o.passes)
    requires TimelyRun(Open(o.times, o.clock), p.size, p.rate, o.passes)
    requires Legal(Before(p, o), p.size, p.rate, pass) && Timely(Before(p, o), p.size, p.rate, pass)
    ensures
      var o' := o.(passes := o.passes + [pass]);
      && LegalRun(Open(o.times, o.clock), p.size, p.rate, o'.passes)
      && TimelyRun(Open(o.times, o.clock), p.size, p.rate, o'.passes)
      && Before(p, o') == Iterate(Before(p, o), p.size, p.rate, pass)
  {
    ExtendRun(Open(o.times, o.clock), p.size, p.rate, o.passes, pass);
    ExtendTimelyRun(Open(o.times, o.clock), p.size, p.rate, o.passes, pass);
  }

  lemma StampIsNoted(p: Config, o: Watched, t: nat, began: nat)
    requires WatchedInv(p, o) && ClientEnabled(p, o.st, ClientStamps(t, began))
    requires !ClientApply(p, o.st, ClientStamps(t, began)).c.phase.CWriting?
    ensures
      var o' := Note(o, ByClient(ClientStamps(t, began)), ClientApply(p, o.st, ClientStamps(t, began)));
      && Noted(p, o') && LegalRun(Open(o.times, o.clock), p.size, p.rate, o'.passes)
      && TimelyRun(Open(o.times, o.clock), p.size, p.rate, o'.passes)
  {
    PassEnds(p, o, o.pass.(stampTime := t));
  }

  lemma WriteIsNoted(p: Config, o: Watched)
    requires WatchedInv(p, o) && ClientEnabled(p, o.st, ClientWriteReturns)
    ensures
      var o' := Note(o, ByClient(ClientWriteReturns), ClientApply(p, o.st, ClientWriteReturns));
      && Noted(p, o') && LegalRun(Open(o.times, o.clock), p.size, p.rate, o'.passes)
      && TimelyRun(Open(o.times, o.clock), p.size, p.rate, o'.passes)
  {
    PassEnds(p, o, o.pass.(didWrite := true, writeMoved := o.st.c.phase.got));
  }

  lemma OtherClientStepsAreNoted(p: Config, o: Watched, a: ClientAction)
    requires WatchedInv(p, o) && ClientEnabled(p, o.st, a) && !a.ClientWriteReturns?
    requires a.ClientStamps? ==> ClientApply(p, o.st, a).c.phase.CWriting?
    ensures
      var o' := Note(o, ByClient(a), ClientApply(p, o.st, a));
      Noted(p, o') && o'.passes == o.passes
  {}

  lemma OthersAreNoted(p: Config, o: Watched, a: Action)
    requires WatchedInv(p, o) && Enabled(p, o.st, a) && !a.ByClient?
    ensures
      var o' := Note(o, a, Apply(p, o.st, a));
      Noted(p, o') && o'.passes == o.passes
  {}

  lemma StepKeepsWatched(p: Config, o: Watched, a: Action)
    requires WatchedInv(p, o) && Enabled(p, o.st, a)
    ensures WatchedInv(p, Note(o, a, Apply(p, o.st, a)))
  {
    var st' := Apply(p, o.st, a);
    assert Next(p, o.st, st');
    StepKeepsBytes(p, o.st, st');
    if !a.ByClient? { OthersAreNoted(p, o, a); }
    else if a.ca.ClientWriteReturns? { WriteIsNoted(p, o); }
    else if a.ca.ClientStamps? && !st'.c.phase.CWriting? { StampIsNoted(p, o, a.ca.t, a.ca.began); }
    else { OtherClientStepsAreNoted(p, o, a.ca); }
  }

  // ---------- every run ----------

  ghost predicate StartsWatch(p: Config, o: Watched) {
    && p.Valid() && Init(p, o.st) && o.st.c.books == Open(o.times, o.clock)
    && o.passes == [] && o.pass == NO_PASS && |o.times| == p.count && o.clock < TWO_TO_64
  }

  ghost function WatchedSystem(p: Config): System<Watched> {
    System((o: Watched) => StartsWatch(p, o), (o: Watched, o': Watched) => WatchedNext(p, o, o'),
           (o: Watched) => p.Valid() && WatchedInv(p, o), (o: Watched) => BothDone(o.st), (o: Watched) => 0)
  }

  lemma WatchedInductive(p: Config)
    ensures Inductive(WatchedSystem(p))
  {
    var sys := WatchedSystem(p);
    forall o | sys.init(o) ensures sys.inv(o) { InitBytes(p, o.st); }
    forall o, o' | sys.inv(o) && sys.next(o, o') ensures sys.inv(o') {
      var a :| Enabled(p, o.st, a) && o' == Note(o, a, Apply(p, o.st, a));
      StepKeepsWatched(p, o, a);
    }
  }

  /** Over either transport, interrupted or not: between two passes the client's counters and slots are those
      of a run of the loop that keeps to its window, whose reads, stamps and writes are those of the client's
      own steps. */
  lemma BooksAreOfThePasses(p: Config, o: Watched)
    requires Reachable(WatchedSystem(p), o) && (o.st.c.phase.CHead? || o.st.c.phase.CDone?)
    ensures p.Valid()
    ensures o.st.c.books == IterateAll(Open(o.times, o.clock), p.size, p.rate, o.passes)
    ensures LegalRun(Open(o.times, o.clock), p.size, p.rate, o.passes)
    ensures TimelyRun(Open(o.times, o.clock), p.size, p.rate, o.passes)
    ensures Counts(o.st.c.books, o.passes, p.size, p.rate)
  {
    WatchedInductive(p);
    InvariantWhereverReachable(WatchedSystem(p), o);
    CountersCount(o.times, o.clock, o.passes, p.size, p.rate);
  }

  // ---------- blocking transports ----------

  ghost predicate WholeSoFar(p: Config, o: Watched)
    requires p.size > 0
  {
    && (o.pass.didRead ==> o.pass.readMoved % p.size == 0) && (!o.pass.didRead ==> o.pass.readMoved == 0)
    && (!o.pass.didWrite ==> o.pass.writeMoved == 0)
    && (if o.st.c.quit then WholeToTheEnd(o.passes, p.size)
        else forall i :: 0 <= i < |o.passes| ==> Whole(o.passes[i], p.size))
  }

  ghost predicate LockstepWatched(p: Config, o: Watched) {
    BlockingInv(p, o.st) && p.Valid() && WatchedInv(p, o) && WholeSoFar(p, o)
  }

  lemma LockstepReadIsWhole(p: Config, st: State, t: nat)
    requires BlockingInv(p, st) && ClientEnabled(p, st, ClientReadReturns(t))
    ensures st.c.phase.got % p.size == 0
  {
    assert st.c.phase.got == st.c.books.outstandingBytes;
    FullWindow(p.size, p.rate, st.c.phase.got);
  }

  lemma LockstepWriteIsWhole(p: Config, st: State)
    requires BlockingInv(p, st) && ClientEnabled(p, st, ClientWriteReturns)
    ensures st.c.phase.got % p.size == 0 || ClientApply(p, st, ClientWriteReturns).c.quit
  {
    FullWindow(p.size, p.rate, st.c.phase.got);
  }

  lemma ReadKeepsWhole(p: Config, o: Watched, t: nat)
    requires LockstepWatched(p, o) && ClientEnabled(p, o.st, ClientReadReturns(t))
    ensures WholeSoFar(p, Note(o, ByClient(ClientReadReturns(t)), ClientApply(p, o.st, ClientReadReturns(t))))
  {
    LockstepReadIsWhole(p, o.st, t);
  }

  lemma StampKeepsWhole(p: Config, o: Watched, t: nat, began: nat)
    requires LockstepWatched(p, o) && ClientEnabled(p, o.st, ClientStamps(t, began))
    ensures WholeSoFar(p, Note(o, ByClient(ClientStamps(t, began)), ClientApply(p, o.st, ClientStamps(t, began))))
  {}

  lemma WriteKeepsWhole(p: Config, o: Watched)
    requires LockstepWatched(p, o) && ClientEnabled(p, o.st, ClientWriteReturns)
    ensures WholeSoFar(p, Note(o, ByClient(ClientWriteReturns), ClientApply(p, o.st, ClientWriteReturns)))
  {
    LockstepWriteIsWhole(p, o.st);
  }

  lemma RestKeepsWhole(p: Config, o: Watched, a: ClientAction)
    requires p.Valid() && WholeSoFar(p, o) && ClientEnabled(p, o.st, a)
    requires !a.ClientReadReturns? && !a.ClientStamps? && !a.ClientWriteReturns?
    ensures WholeSoFar(p, Note(o, ByClient(a), ClientApply(p, o.st, a)))
  {}

  lemma ClientKeepsWhole(p: Config, o: Watched, a: ClientAction)
    requires LockstepWatched(p, o) && ClientEnabled(p, o.st, a)
    ensures WholeSoFar(p, Note(o, ByClient(a), ClientApply(p, o.st, a)))
  {
    match a {
      case ClientReadReturns(t) => ReadKeepsWhole(p, o, t);
      case ClientStamps(t, began) => StampKeepsWhole(p, o, t, began);
      case ClientWriteReturns => WriteKeepsWhole(p, o);
      case _ => RestKeepsWhole(p, o, a);
    }
  }

  lemma StepKeepsLockstepWatched(p: Config, o: Watched, a: Action)
    requires LockstepWatched(p, o) && Enabled(p, o.st, a)
    ensures LockstepWatched(p, Note(o, a, Apply(p, o.st, a)))
  {
    StepKeepsWatched(p, o, a);
    match a {
      case ByClient(ca) =>
        ClientKeepsBlocking(p, o.st, ca);
        ClientKeepsWhole(p, o, ca);
      case ByServer(sa) => ServerKeepsBlocking(p, o.st, sa);
      case _ =>
    }
  }

  lemma LockstepWatchStarts(p: Config, o: Watched)
    requires !p.interruptible && p.contract.Blocking? && StartsWatch(p, o)
    ensures LockstepWatched(p, o)
  {
    InitBytes(p, o.st);
    InitBlocking(p, o.st);
  }

  lemma NextKeepsLockstepWatched(p: Config, o: Watched, o': Watched)
    requires LockstepWatched(p, o) && WatchedNext(p, o, o')
    ensures LockstepWatched(p, o')
  {
    var a :| Enabled(p, o.st, a) && o' == Note(o, a, Apply(p, o.st, a));
    StepKeepsLockstepWatched(p, o, a);
  }

  lemma LockstepWatchedReached(p: Config, o: Watched)
    requires !p.interruptible && p.contract.Blocking? && Reachable(WatchedSystem(p), o)
    ensures LockstepWatched(p, o)
  {
    var sys := WatchedSystem(p).(inv := (o: Watched) => LockstepWatched(p, o));
    forall o | sys.init(o) ensures sys.inv(o) { LockstepWatchStarts(p, o); }
    forall o, o' | sys.inv(o) && sys.next(o, o') ensures sys.inv(o') { NextKeepsLockstepWatched(p, o, o'); }
    SameReachable(WatchedSystem(p), sys, o);
    InvariantWhereverReachable(sys, o);
  }

  /** When an uninterrupted client over a blocking transport has left its loop, every one of its `count` slots
      is the time between the step that stamped its request and the step that read it, and no shorter than
      the time between the start of the write and that read. */
  lemma LatenciesOfTheProtocol(p: Config, o: Watched)
    requires !p.interruptible && p.contract.Blocking? && Reachable(WatchedSystem(p), o) && o.st.c.phase.CDone?
    ensures p.Valid() && |o.st.c.books.times| == p.count
    ensures forall j: nat :: j < p.count ==> Measured(o.st.c.books.times, o.passes, p.size, p.rate, j)
  {
    LockstepWatchedReached(p, o);
    ExitTotals(p, o.st);
    CountersCount(o.times, o.clock, o.passes, p.size, p.rate);
    LatenciesAreMeasured(p.size, p.rate, p.count, o.times, o.clock, o.passes);
  }
}
