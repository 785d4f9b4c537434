/** The echo protocol over blocking transports. Client and server move one full window at a time
    in lockstep; the bytes of the current batch lie in order along the loop client buffer,
    response channel, server buffer, request channel. */
module EchoLockstep {
  import opened Arithmetic
  import opened Books
  import opened Bytes
  import opened Systems
  import opened Echo
  import opened EchoRunning

  /** How much of the current batch has been written so far. */
  ghost function BatchWritten(st: State): int {
    if st.c.phase.CWriting? then st.c.phase.got else st.c.books.outstandingBytes
  }

  /** How much of the current batch has come back. */
  ghost function BatchRead(st: State): nat {
    if st.c.phase.CReading? then st.c.phase.got else 0
  }

  /** The bytes that lie in the server's buffer. */
  ghost function Held(s: Server): seq<byte> {
    match s.phase
    case SReading(got, _, _) => Take(s.buffer, got)
    case SWriting(got, asked) => Drop(Take(s.buffer, asked), got)
    case SDone => []
    case _ => Take(s.buffer, s.outstandingBytes)
  }

  ghost predicate ServerInStep(p: Config, st: State) {
    var s, base, w := st.s, st.c.books.totalRead, p.Window();
    && !s.quit
    && (match s.phase
        case SReading(_, _, _) => s.outstandingBytes == 0 && s.totalWritten == base
        case SWriting(got, asked) =>
          || (asked == 0 && (s.totalWritten == base || s.totalWritten == base + w))
          || (asked == w && s.totalWritten == base)
          || (asked == w && got == w && s.totalWritten + w == base)
        case _ =>
          || (s.outstandingBytes == 0 && (s.totalWritten == base || s.totalWritten == base + w))
          || (s.outstandingBytes == w && s.totalWritten == base && base < p.MaxBytes() && !s.phase.SDone?))
  }

  ghost predicate ClientInStep(p: Config, st: State) {
    var b := st.c.books;
    && (!st.c.quit ==> b.outstandingBytes == 0 || b.outstandingBytes == p.Window())
    && (st.c.quit ==> (st.c.phase.CHead? || st.c.phase.CDone?) && b.totalRead >= p.MaxBytes())
    && (st.c.phase.CDone? ==> b.totalRead >= p.MaxBytes())
    && (st.c.phase.CWriting? ==> b.outstandingBytes == 0)
    && p.Window() > 0 && b.totalRead % p.Window() == 0
  }

  /** Read round the loop, the bytes under way are exactly the part of the batch written so far. */
  ghost predicate BatchInOrder(p: Config, st: State) {
    !st.c.quit ==>
      Take(st.c.readBuffer, BatchRead(st)) + st.response + Held(st.s) + st.request == Take(p.payload, BatchWritten(st))
  }

  ghost predicate StepInv(p: Config, st: State) {
    p.contract.Blocking? && RunningInv(p, st) && ServerInStep(p, st) && ClientInStep(p, st)
  }

  lemma InitInStep(p: Config, st: State)
    requires p.Valid() && !p.interruptible && p.contract.Blocking? && Init(p, st)
    ensures StepInv(p, st) && BatchInOrder(p, st)
  {
    InitRunning(p, st);
  }

  lemma ClientControlKeepsStep(p: Config, st: State, a: ClientAction)
    requires a.Control() && StepInv(p, st) && ClientEnabled(p, st, a)
    ensures ServerInStep(p, ClientApply(p, st, a)) && ClientInStep(p, ClientApply(p, st, a))
  {}

  lemma ClientReadingKeepsStep(p: Config, st: State, a: ClientAction)
    requires a.Reading() && StepInv(p, st) && ClientEnabled(p, st, a)
    ensures ServerInStep(p, ClientApply(p, st, a)) && ClientInStep(p, ClientApply(p, st, a))
  {
    AddWindow(st.c.books.totalRead, p.Window());
  }

  lemma ClientWritingKeepsStep(p: Config, st: State, a: ClientAction)
    requires a.Writing() && StepInv(p, st) && ClientEnabled(p, st, a)
    ensures ServerInStep(p, ClientApply(p, st, a)) && ClientInStep(p, ClientApply(p, st, a))
  {}

  lemma ServerControlKeepsStep(p: Config, st: State, a: ServerAction)
    requires a.Control() && StepInv(p, st) && ServerEnabled(p, st, a)
    ensures ServerInStep(p, ServerApply(p, st, a)) && ClientInStep(p, ServerApply(p, st, a))
  {}

  lemma ServerReadingKeepsStep(p: Config, st: State, a: ServerAction)
    requires a.Reading() && StepInv(p, st) && ServerEnabled(p, st, a)
    ensures ServerInStep(p, ServerApply(p, st, a)) && ClientInStep(p, ServerApply(p, st, a))
  {}

  lemma ServerWritingKeepsStep(p: Config, st: State, a: ServerAction)
    requires a.Writing() && StepInv(p, st) && ServerEnabled(p, st, a)
    ensures ServerInStep(p, ServerApply(p, st, a)) && ClientInStep(p, ServerApply(p, st, a))
  {}

  lemma ClientControlKeepsOrder(p: Config, st: State, a: ClientAction)
    requires a.Control() && StepInv(p, st) && BatchInOrder(p, st) && ClientEnabled(p, st, a)
    ensures BatchInOrder(p, ClientApply(p, st, a))
  {}

  lemma ClientReadingKeepsOrder(p: Config, st: State, a: ClientAction)
    requires a.Reading() && StepInv(p, st) && BatchInOrder(p, st) && ClientEnabled(p, st, a)
    ensures BatchInOrder(p, ClientApply(p, st, a))
  {
    var st' := ClientApply(p, st, a);
    if a.ClientReads? {
      assert Take(st'.c.readBuffer, BatchRead(st')) == Take(st.c.readBuffer, BatchRead(st)) + st.response[..a.n];
      assert st.response == st.response[..a.n] + st'.response;
    }
  }

  lemma ClientWritingKeepsOrder(p: Config, st: State, a: ClientAction)
    requires a.Writing() && StepInv(p, st) && BatchInOrder(p, st) && ClientEnabled(p, st, a)
    ensures BatchInOrder(p, ClientApply(p, st, a))
  {
    var st' := ClientApply(p, st, a);
    if a.ClientWrites? {
      var got := st.c.phase.got;
      assert Take(p.payload, got + a.n) == Take(p.payload, got) + Part(p.payload, got, a.n);
    }
  }

  lemma ServerControlKeepsOrder(p: Config, st: State, a: ServerAction)
    requires a.Control() && StepInv(p, st) && BatchInOrder(p, st) && ServerEnabled(p, st, a)
    ensures BatchInOrder(p, ServerApply(p, st, a))
  {
    assert Held(ServerApply(p, st, a).s) == Held(st.s);
  }

  lemma ServerReadingKeepsOrder(p: Config, st: State, a: ServerAction)
    requires a.Reading() && StepInv(p, st) && BatchInOrder(p, st) && ServerEnabled(p, st, a)
    ensures BatchInOrder(p, ServerApply(p, st, a))
  {
    var st' := ServerApply(p, st, a);
    if a.ServerReads? {
      assert Held(st'.s) == Held(st.s) + st.request[..a.n];
      assert st.request == st.request[..a.n] + st'.request;
    } else {
      assert Held(st'.s) == Held(st.s);
    }
  }

  lemma PrefixLeaves(buffer: seq<byte>, got: nat, n: nat, asked: nat)
    requires got + n <= asked <= |buffer|
    ensures Drop(Take(buffer, asked), got) == Part(buffer, got, n) + Drop(Take(buffer, asked), got + n)
  {}

  lemma Regroup(a: seq<byte>, b: seq<byte>, c: seq<byte>, d: seq<byte>, e: seq<byte>)
    ensures a + (b + c) + d + e == a + b + (c + d) + e
  {}

  lemma ServerWritesKeepOrder(p: Config, st: State, a: ServerAction)
    requires a.ServerWrites? && StepInv(p, st) && BatchInOrder(p, st) && ServerEnabled(p, st, a)
    ensures BatchInOrder(p, ServerApply(p, st, a))
  {
    var st' := ServerApply(p, st, a);
    var got, asked := st.s.phase.got, st.s.phase.asked;
    PrefixLeaves(st.s.buffer, got, a.n, asked);
    Regroup(Take(st.c.readBuffer, BatchRead(st)), st.response, Part(st.s.buffer, got, a.n), Held(st'.s), st.request);
  }

  lemma ServerWriteReturnKeepsOrder(p: Config, st: State, a: ServerAction)
    requires a.ServerWriteReturns? && StepInv(p, st) && BatchInOrder(p, st) && ServerEnabled(p, st, a)
    ensures BatchInOrder(p, ServerApply(p, st, a))
  {
    assert st.s.phase.got == st.s.phase.asked;
    assert Held(ServerApply(p, st, a).s) == Held(st.s);
  }

  /** In lockstep the request counters follow the byte counters, so the latency ledger holds. */
  ghost predicate RequestsInStep(p: Config, st: State) {
    var b := st.c.books;
    && LedgerInv(b, p.rate) && |b.times| == p.count
    && b.totalRead == p.size * b.numReqsRead
    && (!st.c.quit ==> b.outstandingBytes == p.size * b.outstandingReqs)
    && (st.c.phase.CWriting? ==>
          b.outstandingReqs == 0 && b.numReqsRead + p.rate <= b.numReqsSent)
  }

  lemma NoRequests(size: nat, reqs: nat)
    requires size > 0 && size * reqs == 0
    ensures reqs == 0
  {
    if reqs > 0 { LargerFactor(size, reqs, 0); }
  }

  lemma FullWindow(size: nat, rate: nat, moved: nat)
    requires size > 0 && moved <= size * rate
    ensures moved / size <= rate
    ensures moved == size * rate ==> moved / size == rate && moved % size == 0
    ensures moved == 0 ==> moved / size == 0
  {
    DivMod(moved, size);
    if moved / size > rate { LargerFactor(size, moved / size, rate); }
    if moved == size * rate { ModUnique(moved, size, rate, 0); }
  }

  lemma ClientReadReturnKeepsRequests(p: Config, st: State, a: ClientAction)
    requires a.ClientReadReturns? && StepInv(p, st) && RequestsInStep(p, st) && ClientEnabled(p, st, a)
    ensures RequestsInStep(p, ClientApply(p, st, a))
  {
    var b, got := st.c.books, st.c.phase.got;
    assert got == b.outstandingBytes;
    WholeRequests(p.size, 0, 0);
    ModUnique(got, p.size, b.outstandingReqs, 0);
    ReadKeepsLedger(b, p.size, p.rate, got, a.t);
    Distribute(p.size, b.numReqsRead, got / p.size);
  }

  lemma ClientStampKeepsRequests(p: Config, st: State, a: ClientAction)
    requires a.ClientStamps? && StepInv(p, st) && RequestsInStep(p, st) && ClientEnabled(p, st, a)
    ensures RequestsInStep(p, ClientApply(p, st, a))
  {
    StampKeepsLedger(st.c.books, p.rate, a.t);
    if st.c.books.outstandingBytes == 0 { NoRequests(p.size, st.c.books.outstandingReqs); }
  }

  lemma ClientWriteReturnKeepsRequests(p: Config, st: State, a: ClientAction)
    requires a.ClientWriteReturns? && StepInv(p, st) && RequestsInStep(p, st) && ClientEnabled(p, st, a)
    ensures RequestsInStep(p, ClientApply(p, st, a))
  {
    var b, got := st.c.books, st.c.phase.got;
    FullWindow(p.size, p.rate, got);
    WriteKeepsLedger(b, p.size, p.rate, got, st.c.phase.began);
  }

  lemma StepKeepsRequests(p: Config, st: State, a: Action)
    requires StepInv(p, st) && RequestsInStep(p, st) && Enabled(p, st, a)
    ensures RequestsInStep(p, Apply(p, st, a))
  {
    match a {
      case ByClient(ca) =>
        if ca.ClientReadReturns? { ClientReadReturnKeepsRequests(p, st, ca); }
        else if ca.ClientStamps? { ClientStampKeepsRequests(p, st, ca); }
        else if ca.ClientWriteReturns? { ClientWriteReturnKeepsRequests(p, st, ca); }
      case _ =>
    }
  }

  // ---------- the whole invariant ----------

  ghost predicate BlockingInv(p: Config, st: State) {
    StepInv(p, st) && BatchInOrder(p, st) && RequestsInStep(p, st)
  }

  lemma ClientKeepsBlocking(p: Config, st: State, a: ClientAction)
    requires BlockingInv(p, st) && ClientEnabled(p, st, a)
    ensures BlockingInv(p, ClientApply(p, st, a))
  {
    StepKeepsRunning(p, st, ByClient(a));
    StepKeepsRequests(p, st, ByClient(a));
    if a.Control() { ClientControlKeepsStep(p, st, a); ClientControlKeepsOrder(p, st, a); }
    else if a.Reading() { ClientReadingKeepsStep(p, st, a); ClientReadingKeepsOrder(p, st, a); }
    else { ClientWritingKeepsStep(p, st, a); ClientWritingKeepsOrder(p, st, a); }
  }

  lemma ServerKeepsBlocking(p: Config, st: State, a: ServerAction)
    requires BlockingInv(p, st) && ServerEnabled(p, st, a)
    ensures BlockingInv(p, ServerApply(p, st, a))
  {
    StepKeepsRunning(p, st, ByServer(a));
    StepKeepsRequests(p, st, ByServer(a));
    if a.Control() { ServerControlKeepsStep(p, st, a); ServerControlKeepsOrder(p, st, a); }
    else if a.Reading() { ServerReadingKeepsStep(p, st, a); ServerReadingKeepsOrder(p, st, a); }
    else if a.ServerWrites? { ServerWritingKeepsStep(p, st, a); ServerWritesKeepOrder(p, st, a); }
    else { ServerWritingKeepsStep(p, st, a); ServerWriteReturnKeepsOrder(p, st, a); }
  }

  lemma StepKeepsBlocking(p: Config, st: State, st': State)
    requires BlockingInv(p, st) && Next(p, st, st')
    ensures BlockingInv(p, st')
  {
    var a :| Enabled(p, st, a) && st' == Apply(p, st, a);
    match a {
      case ByClient(ca) => ClientKeepsBlocking(p, st, ca);
      case ByServer(sa) => ServerKeepsBlocking(p, st, sa);
      case _ =>
    }
  }

  lemma InitBlocking(p: Config, st: State)
    requires p.Valid() && !p.interruptible && p.contract.Blocking? && Init(p, st)
    ensures BlockingInv(p, st)
  {
    InitInStep(p, st);
    var times: seq<nat>, clock: nat :|
      |times| == p.count && clock < TWO_TO_64 && st.c.books == Open(times, clock);
    OpenKeepsLedger(times, clock, p.rate, p.size);
  }

  // ---------- consequences ----------

  lemma ClientBatchIsPayload(p: Config, st: State)
    requires BlockingInv(p, st) && st.c.phase.CReading? && 0 < st.c.phase.asked == st.c.phase.got
    ensures st.c.readBuffer == p.payload
  {
    EqualPrefix(Take(st.c.readBuffer, BatchRead(st)), st.response + Held(st.s) + st.request, p.payload);
  }

  lemma ServerBatchIsPayload(p: Config, st: State)
    requires BlockingInv(p, st) && st.s.phase.SReading? && st.s.phase.got == st.s.phase.asked
    ensures st.s.buffer == p.payload
  {
    assert BatchRead(st) == 0 && st.response == [];
    EqualPrefix(Held(st.s), st.request, p.payload);
  }

  lemma EqualPrefix(a: seq<byte>, b: seq<byte>, whole: seq<byte>)
    requires a + b <= whole && |a| == |whole|
    ensures a == whole
  {}

  /** The number of batches a run takes: count / rate, rounded up. */
  function Batches(p: Config): nat
    requires p.rate > 0
  {
    (p.count + p.rate - 1) / p.rate
  }

  lemma RoundedUp(size: nat, rate: nat, count: nat, total: nat)
    requires size > 0 && rate > 0 && size * rate > 0
    requires total % (size * rate) == 0 && size * count <= total < size * count + size * rate
    ensures total == size * rate * ((count + rate - 1) / rate)
  {
    var w := size * rate;
    var k := total / w;
    DivMod(total, w);
    assert total == w * k == size * (rate * k) by { assert size * rate * k == size * (rate * k); }
    if rate * k < count { LargerFactor(size, count, rate * k); }
    Distribute(size, count, rate);
    if rate * k > count + rate { LargerFactor(size, rate * k, count + rate); }
    var r := rate * k - count;
    assert count + rate - 1 == k * rate + (rate - 1 - r);
    ModUnique(count + rate - 1, rate, k, rate - 1 - r);
  }

  lemma ExitTotals(p: Config, st: State)
    requires BlockingInv(p, st) && st.c.phase.CDone?
    ensures st.c.books.totalRead == p.Window() * Batches(p)
    ensures st.s.phase.SDone? ==> st.s.totalWritten == st.c.books.totalRead
    ensures st.c.books.numReqsRead >= p.count
  {
    ServerAtExit(p, st);
    RoundedUp(p.size, p.rate, p.count, st.c.books.totalRead);
    AllRequestsRead(p.size, st.c.books.numReqsRead, p.count);
  }

  lemma ServerAtExit(p: Config, st: State)
    requires BlockingInv(p, st) && st.c.phase.CDone?
    ensures p.MaxBytes() <= st.c.books.totalRead < p.MaxBytes() + p.Window()
    ensures st.s.phase.SDone? ==> st.s.totalWritten == st.c.books.totalRead
  {}
}
