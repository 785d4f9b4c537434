/** Non-blocking transports: for exactly which request sizes the client's request counters keep up with
    its byte counters. */
module EchoDrift {
  import opened Arithmetic
  import opened Books
  import opened Systems
  import opened Echo
  import opened EchoProgress
  import opened EchoTheorems
  import opened EchoByteByByte

  // ---------- requests of one byte ----------

  /** No call has ever split a request. */
  ghost predicate NoSpares(p: Config, st: State) {
    && BytesInv(p, st) && DriftLedger(st.c.books, p.size)
    && st.c.books.spareWritten == st.c.books.spareRead == 0
  }

  lemma ClientSplitsNoByte(p: Config, st: State, a: ClientAction)
    requires p.size == 1 && ClientEnabled(p, st, a)
    ensures
      var b, b' := st.c.books, ClientApply(p, st, a).c.books;
      b'.spareWritten == b.spareWritten && b'.spareRead == b.spareRead
  {}

  lemma OneByteRequestsHaveNoSpares(p: Config, st: State, st': State)
    requires p.size == 1 && NoSpares(p, st) && Next(p, st, st')
    ensures NoSpares(p, st')
  {
    StepKeepsBytes(p, st, st');
    StepKeepsDriftLedger(p, st, st');
    var a :| Enabled(p, st, a) && st' == Apply(p, st, a);
    match a {
      case ByClient(ca) => ClientSplitsNoByte(p, st, ca);
      case _ => assert st'.c.books == st.c.books;
    }
  }

  lemma OneByteRequestsAgree(p: Config, st: State)
    requires p.Valid() && p.size == 1 && Reachable(EchoSystem(p), st)
    ensures st.c.books.outstandingBytes == st.c.books.outstandingReqs <= p.rate
  {
    var sys := EchoSystem(p).(inv := (st: State) => NoSpares(p, st));
    forall st | sys.init(st) ensures sys.inv(st) { InitBytes(p, st); }
    forall st, st' | sys.inv(st) && sys.next(st, st') ensures sys.inv(st') { OneByteRequestsHaveNoSpares(p, st, st'); }
    SameReachable(EchoSystem(p), sys, st);
    InvariantWhereverReachable(sys, st);
  }

  // ---------- larger requests ----------

  /** The client has written n single bytes in n calls, none of them a whole request, and the server has
      taken them all. */
  ghost predicate Scattered(p: Config, st: State, n: nat) {
    var b := st.c.books;
    && Reachable(EchoSystem(p), st)
    && st.c.phase.CHead? && !st.c.quit && b.clock < TWO_TO_64
    && b.outstandingBytes == n && b.totalRead == 0 && b.outstandingReqs == 0
    && st.s.phase.SHead? && !st.s.quit && st.s.outstandingBytes == n && st.s.totalWritten == 0
    && st.request == [] && st.response == []
  }

  lemma SizeFits(p: Config)
    requires p.Valid()
    ensures p.size <= p.Window() && p.size <= p.MaxBytes()
  {
    Distribute(p.size, p.rate - 1, 1);
    Distribute(p.size, p.count - 1, 1);
    assert p.size * (p.rate - 1) >= 0 && p.size * (p.count - 1) >= 0;
  }

  lemma OneByteIsNoRequest(p: Config, b: Books)
    requires p.size > 1 && b.outstandingReqs == 0
    ensures
      var b' := OneWritten(p, b);
      && b'.outstandingReqs == 0 && b'.outstandingBytes == b.outstandingBytes + 1
      && b'.totalRead == b.totalRead && b'.clock == b.clock
  {}

  lemma {:induction false} Scatter(p: Config, n: nat) returns (st: State)
    requires p.Valid() && p.contract.NonBlocking? && p.size > 1 && n <= p.size
    ensures Scattered(p, st, n)
  {
    SizeFits(p);
    if n == 0 {
      Begins(p);
      st := FirstState(p);
    } else {
      var before := Scatter(p, n - 1);
      OneByteIsNoRequest(p, before.c.books);
      st := ClientSendsOne(p, before);
      st := ServerTakesOne(p, st);
    }
  }

  /** The client is inside a read call that has collected n bytes of one request, and the next one is
      on its way. */
  ghost predicate Gathering(p: Config, st: State, n: nat) {
    && Reachable(EchoSystem(p), st)
    && st.c.phase == CReading(n, p.size, false) && st.c.books.clock < TWO_TO_64
    && st.c.books.outstandingReqs == 0 && st.c.books.outstandingBytes == p.size
    && st.s.phase.SHead? && !st.s.quit && st.s.outstandingBytes == p.size - n - 1 && st.s.totalWritten == n + 1
    && |st.response| == 1
  }

  lemma {:induction false} Gather(p: Config, n: nat) returns (st: State)
    requires p.Valid() && p.contract.NonBlocking? && p.size > 1 && n < p.size
    ensures Gathering(p, st, n)
  {
    SizeFits(p);
    if n == 0 {
      st := Scatter(p, p.size);
      st := ServerAnswersOne(p, st);
      st := ClientStartsReading(p, st);
    } else {
      st := Gather(p, n - 1);
      st := Takes(p, st, ByClient(ClientReads(1)));
      st := ServerAnswersOne(p, st);
    }
  }

  lemma OneRequestRead(b: Books, size: nat, rate: nat, t: nat)
    requires size > 0 && b.outstandingReqs == 0 && rate < TWO_TO_64
    ensures AfterStamp(AfterRead(b, size, size, t), rate, t).outstandingReqs == TWO_TO_64 - 1
    ensures AfterStamp(AfterRead(b, size, size, t), rate, t).outstandingBytes == b.outstandingBytes - size
  {
    ModUnique(size, size, 1, 0);
    assert Wrap64(-1) == TWO_TO_64 - 1;
  }

  /** Requests written byte by byte count as none, read back in one call they count as one. */
  lemma CounterWraps(p: Config) returns (st: State)
    requires p.Valid() && p.contract.NonBlocking? && p.size > 1
    ensures Reachable(EchoSystem(p), st)
    ensures st.c.books.outstandingReqs == TWO_TO_64 - 1 && st.c.books.outstandingBytes == 0
  {
    st := Gather(p, p.size - 1);
    OneRequestRead(st.c.books, p.size, p.rate, st.c.books.clock);
    st := Takes(p, st, ByClient(ClientReads(1)));
    st := ClientReadEnds(p, st);
  }

  // ---------- the exact conditions ----------

  /** For all rates, counts and capacities: in every reachable state between two passes the request counter
      of a TCP client stands for its outstanding bytes if and only if a request is a single byte. */
  lemma CountersAgreeIffRequestsAreBytes(p: Config)
    requires p.Valid() && p.contract.NonBlocking?
    ensures
      (forall st :: Reachable(EchoSystem(p), st) && st.c.phase.CHead? ==>
         st.c.books.outstandingBytes == p.size * st.c.books.outstandingReqs)
      <==> p.size == 1
  {
    if p.size == 1 {
      forall st | Reachable(EchoSystem(p), st)
        ensures st.c.books.outstandingBytes == p.size * st.c.books.outstandingReqs
      {
        OneByteRequestsAgree(p, st);
      }
    } else {
      var st := Scatter(p, 1);
      assert st.c.books.outstandingBytes == 1 && p.size * st.c.books.outstandingReqs == 0;
    }
  }

  /** And it can wrap below zero, with no byte outstanding but 2^64 - 1 requests, if and only if a request
      has more than one byte. */
  lemma CounterCanWrapIffRequestsCanSplit(p: Config)
    requires p.Valid() && p.contract.NonBlocking?
    ensures
      (exists st :: Reachable(EchoSystem(p), st) &&
                    st.c.books.outstandingBytes == 0 && st.c.books.outstandingReqs == TWO_TO_64 - 1)
      <==> p.size > 1
  {
    if p.size > 1 {
      var st := CounterWraps(p);
    } else {
      forall st | Reachable(EchoSystem(p), st) ensures st.c.books.outstandingBytes == st.c.books.outstandingReqs {
        OneByteRequestsAgree(p, st);
      }
    }
  }
}
