/** Runs of the echo protocol over non-blocking transports in which every call moves one byte: the
    steps from which the exceptional states are reached. */
module EchoByteByByte {
  import opened Books
  import opened Systems
  import opened Echo
  import opened EchoProgress

  lemma Takes(p: Config, st: State, a: Action) returns (st': State)
    requires p.Valid() && Reachable(EchoSystem(p), st) && Enabled(p, st, a)
    ensures Reachable(EchoSystem(p), st') && st' == Apply(p, st, a)
  {
    st' := Apply(p, st, a);
    assert Next(p, st, st');
    ReachableStep(EchoSystem(p), st, st');
  }

  /** A client between two passes that will make another one. */
  ghost predicate ClientGoesOn(p: Config, c: Client) {
    c.phase.CHead? && !ClientMustExit(p, c) && c.books.clock < TWO_TO_64
  }

  ghost predicate ServerGoesOn(p: Config, s: Server) {
    s.phase.SHead? && !ServerMustExit(p, s)
  }

  /** The books after a pass that wrote one byte. */
  ghost function OneWritten(p: Config, b: Books): Books
    requires p.size > 0
  {
    AfterWrite(AfterStamp(b, p.rate, b.clock), p.size, 1, b.clock)
  }

  lemma ClientStartsWriting(p: Config, st: State) returns (st': State)
    requires p.Valid() && Reachable(EchoSystem(p), st) && ClientGoesOn(p, st.c) && !st.s.phase.SDone?
    requires st.c.books.outstandingBytes < p.Window() && |st.request| < p.requestCapacity
    ensures Reachable(EchoSystem(p), st') && st' == st.(c := st'.c) && !st'.c.quit
    ensures st'.c.phase == CWriting(0, p.Window() - st.c.books.outstandingBytes, st.c.books.clock)
    ensures st'.c.books == AfterStamp(st.c.books, p.rate, st.c.books.clock)
  {
    var t := st.c.books.clock;
    st' := Takes(p, st, ByClient(ClientPoll(false, true)));
    st' := Takes(p, st', ByClient(ClientDispatch(false)));
    st' := Takes(p, st', ByClient(ClientStamps(t, t)));
  }

  lemma ClientSendsOne(p: Config, st: State) returns (st': State)
    requires p.Valid() && p.contract.NonBlocking? && Reachable(EchoSystem(p), st)
    requires ClientGoesOn(p, st.c) && !st.s.phase.SDone?
    requires st.c.books.outstandingBytes < p.Window() && |st.request| < p.requestCapacity
    ensures Reachable(EchoSystem(p), st') && st'.s == st.s && st'.response == st.response
    ensures |st'.request| == |st.request| + 1
    ensures st'.c.phase.CHead? && !st'.c.quit && st'.c.books == OneWritten(p, st.c.books)
  {
    st' := ClientStartsWriting(p, st);
    st' := Takes(p, st', ByClient(ClientWrites(1)));
    st' := Takes(p, st', ByClient(ClientWriteReturns));
  }

  lemma ServerStartsReading(p: Config, st: State) returns (st': State)
    requires p.Valid() && Reachable(EchoSystem(p), st) && ServerGoesOn(p, st.s)
    requires st.request != [] && 0 <= st.s.outstandingBytes <= p.Window()
    ensures Reachable(EchoSystem(p), st') && st' == st.(s := st.s.(phase := SReading(0, p.Window(), false)))
  {
    st' := Takes(p, st, ByServer(ServerPoll(true, false)));
    st' := Takes(p, st', ByServer(ServerDispatch(false)));
  }

  lemma ServerTakesOne(p: Config, st: State) returns (st': State)
    requires p.Valid() && p.contract.NonBlocking? && Reachable(EchoSystem(p), st) && ServerGoesOn(p, st.s)
    requires st.request != [] && 0 <= st.s.outstandingBytes <= p.Window()
    ensures Reachable(EchoSystem(p), st') && st'.c == st.c && st'.response == st.response
    ensures |st'.request| == |st.request| - 1
    ensures st'.s.phase.SHead? && !st'.s.quit && st'.s.totalWritten == st.s.totalWritten
    ensures st'.s.outstandingBytes == st.s.outstandingBytes + 1
  {
    st' := ServerStartsReading(p, st);
    st' := Takes(p, st', ByServer(ServerReads(1)));
    st' := Takes(p, st', ByServer(ServerReadReturns));
  }

  lemma ServerStartsWriting(p: Config, st: State) returns (st': State)
    requires p.Valid() && Reachable(EchoSystem(p), st) && ServerGoesOn(p, st.s)
    requires |st.response| < p.responseCapacity
    ensures Reachable(EchoSystem(p), st') && st' == st.(s := st.s.(phase := SWriting(0, st.s.outstandingBytes)))
  {
    st' := Takes(p, st, ByServer(ServerPoll(false, true)));
    st' := Takes(p, st', ByServer(ServerDispatch(false)));
  }

  lemma ServerAnswersOne(p: Config, st: State) returns (st': State)
    requires p.Valid() && p.contract.NonBlocking? && Reachable(EchoSystem(p), st) && ServerGoesOn(p, st.s)
    requires st.s.outstandingBytes > 0 && |st.response| < p.responseCapacity && !st.c.phase.CDone?
    ensures Reachable(EchoSystem(p), st') && st'.c == st.c && st'.request == st.request
    ensures |st'.response| == |st.response| + 1
    ensures st'.s.phase.SHead? && !st'.s.quit && st'.s.totalWritten == st.s.totalWritten + 1
    ensures st'.s.outstandingBytes == st.s.outstandingBytes - 1
  {
    st' := ServerStartsWriting(p, st);
    st' := Takes(p, st', ByServer(ServerWrites(1)));
    st' := Takes(p, st', ByServer(ServerWriteReturns));
  }

  lemma ClientStartsReading(p: Config, st: State) returns (st': State)
    requires p.Valid() && Reachable(EchoSystem(p), st) && ClientGoesOn(p, st.c) && st.response != []
    ensures Reachable(EchoSystem(p), st')
    ensures st' == st.(c := st.c.(phase := CReading(0, st.c.books.outstandingBytes, false)))
  {
    st' := Takes(p, st, ByClient(ClientPoll(true, false)));
    st' := Takes(p, st', ByClient(ClientDispatch(false)));
  }

  /** The end of a pass whose read moved what it did and that does not write. */
  lemma ClientReadEnds(p: Config, st: State) returns (st': State)
    requires p.Valid() && p.contract.NonBlocking? && Reachable(EchoSystem(p), st)
    requires st.c.phase.CReading? && !st.c.phase.canWrite && st.c.books.clock < TWO_TO_64
    ensures Reachable(EchoSystem(p), st')
    ensures
      var b, t := st.c.books, st.c.books.clock;
      st' == st.(c := st.c.(phase := CHead, books := AfterStamp(AfterRead(b, p.size, st.c.phase.got, t), p.rate, t)))
  {
    var t := st.c.books.clock;
    st' := Takes(p, st, ByClient(ClientReadReturns(t)));
    st' := Takes(p, st', ByClient(ClientStamps(t, t)));
  }

  lemma ClientGetsOne(p: Config, st: State) returns (st': State)
    requires p.Valid() && p.contract.NonBlocking? && Reachable(EchoSystem(p), st) && ClientGoesOn(p, st.c)
    requires st.response != [] && st.c.books.outstandingBytes > 0
    ensures Reachable(EchoSystem(p), st') && st'.s == st.s && st'.request == st.request
    ensures |st'.response| == |st.response| - 1
    ensures st'.c.phase.CHead? && st'.c.quit == st.c.quit && st'.c.books.clock == st.c.books.clock
    ensures st'.c.books.totalRead == st.c.books.totalRead + 1
    ensures st'.c.books.outstandingBytes == st.c.books.outstandingBytes - 1
  {
    st' := ClientStartsReading(p, st);
    st' := Takes(p, st', ByClient(ClientReads(1)));
    st' := ClientReadEnds(p, st');
  }

  ghost function FirstState(p: Config): State {
    var books := Open(Repeat(p.count, 0), 0);
    State(Client(CHead, books, p.payload, false), Server(SHead, 0, 0, 0, false, p.payload, false, false), [], [])
  }

  lemma Begins(p: Config)
    requires p.Valid()
    ensures Init(p, FirstState(p)) && Reachable(EchoSystem(p), FirstState(p))
  {
    assert FirstState(p).c.books == Open(Repeat(p.count, 0), 0);
    Started(EchoSystem(p), FirstState(p));
  }

  /** All bytes written so far have come back, n of them; both processes are between two passes. */
  ghost predicate Settled(p: Config, st: State, n: nat) {
    && Reachable(EchoSystem(p), st)
    && st.c.phase.CHead? && !st.c.quit && st.c.books.clock < TWO_TO_64
    && st.c.books.outstandingBytes == 0 && st.c.books.totalRead == n
    && st.s.phase.SHead? && !st.s.quit && st.s.outstandingBytes == 0 && st.s.totalWritten == n
    && st.request == [] && st.response == []
  }

  /** One byte goes all the way round. */
  lemma OneByteRound(p: Config, st: State, n: nat) returns (st': State)
    requires p.Valid() && p.contract.NonBlocking? && Settled(p, st, n) && n < p.MaxBytes()
    ensures Settled(p, st', n + 1)
  {
    st' := ClientSendsOne(p, st);
    st' := ServerTakesOne(p, st');
    st' := ServerAnswersOne(p, st');
    st' := ClientGetsOne(p, st');
  }

  lemma {:induction false} ByteRounds(p: Config, n: nat) returns (st: State)
    requires p.Valid() && p.contract.NonBlocking? && n < p.MaxBytes()
    ensures Settled(p, st, n)
  {
    if n == 0 {
      Begins(p);
      st := FirstState(p);
    } else {
      st := ByteRounds(p, n - 1);
      st := OneByteRound(p, st, n - 1);
    }
  }
}
