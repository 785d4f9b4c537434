/** The windowed echo protocol of the FIFO, domain-socket and TCP benchmarks as a two-process
    system at the granularity of single system calls. Client and server run their `communicate`
    loops; poll results, the length of every read and write, and the moment each process takes
    its next step are chosen by the environment. */
module Echo {
  import opened Books
  import opened Bytes
  import opened Systems

  /** Blocking (FIFO, domain): a helper's loop is left early only at end of file, on a closed reader or
      after a signal. NonBlocking (TCP): it may also be left after any prefix, possibly empty. */
  datatype Contract = Blocking | NonBlocking

  /** What both processes are started with, the capacities of the two byte channels, and the
      (never modified) contents of the client's write buffer. */
  datatype Config = Config(
    size: nat, rate: nat, count: nat,
    requestCapacity: nat, responseCapacity: nat,
    contract: Contract,
    interruptible: bool,
    payload: seq<byte>)
  {
    function Window(): nat { size * rate }

    function MaxBytes(): nat { size * count }

    ghost predicate Valid() {
      && size > 0 && count > 0 && 0 < rate < TWO_TO_64
      && requestCapacity > 0 && responseCapacity > 0
      && Window() > 0 && MaxBytes() > 0
      && |payload| == Window()
    }
  }

  datatype ClientPhase =
    | CHead
    | CPolled(canRead: bool, canWrite: bool)
    | CReading(got: nat, asked: int, canWrite: bool)
    | CStamping(canWrite: bool)
    | CWriting(got: nat, asked: int, began: nat)
    | CDone

  datatype Client = Client(phase: ClientPhase, books: Books, readBuffer: seq<byte>, quit: bool)

  datatype ServerPhase =
    | SHead
    | SPolled(canRead: bool, canWrite: bool)
    | SReading(got: nat, asked: int, canWrite: bool)
    | SWriting(got: nat, asked: int)
    | SDone

  /** `armed` says that the server polls for writing; `overrun` records an access outside the
      buffer it allocated. */
  datatype Server = Server(
    phase: ServerPhase,
    outstandingBytes: int, totalRead: int, totalWritten: int,
    armed: bool, buffer: seq<byte>, overrun: bool, quit: bool)

  datatype State = State(c: Client, s: Server, request: seq<byte>, response: seq<byte>)

  datatype ClientAction =
    | ClientExit
    | ClientPoll(canRead: bool, canWrite: bool)
    | ClientDispatch(raced: bool)
    | ClientReads(n: nat)
    | ClientReadReturns(t: nat)
    | ClientStamps(t: nat, began: nat)
    | ClientWrites(n: nat)
    | ClientWriteReturns
  {
    predicate Control() { ClientExit? || ClientPoll? || ClientDispatch? }
    predicate Reading() { ClientReads? || ClientReadReturns? }
    predicate Writing() { ClientStamps? || ClientWrites? || ClientWriteReturns? }
  }

  datatype ServerAction =
    | ServerExit
    | ServerPoll(canRead: bool, canWrite: bool)
    | ServerDispatch(raced: bool)
    | ServerReads(n: nat)
    | ServerReadReturns
    | ServerWrites(n: nat)
    | ServerWriteReturns
  {
    predicate Control() { ServerExit? || ServerPoll? || ServerDispatch? }
    predicate Reading() { ServerReads? || ServerReadReturns? }
    predicate Writing() { ServerWrites? || ServerWriteReturns? }
  }

  datatype Action =
    | ByClient(ca: ClientAction)
    | ByServer(sa: ServerAction)
    | InterruptClient
    | InterruptServer

  ghost predicate Init(p: Config, s: State) {
    && (exists times: seq<nat>, clock: nat ::
          |times| == p.count && clock < TWO_TO_64 && s.c.books == Open(times, clock))
    && s.c.phase == CHead && !s.c.quit && |s.c.readBuffer| == p.Window()
    && s.s.phase == SHead && !s.s.quit && |s.s.buffer| == p.Window() && !s.s.overrun && !s.s.armed
    && s.s.outstandingBytes == s.s.totalRead == s.s.totalWritten == 0
    && s.request == [] && s.response == []
  }

  // ---------- one step ----------

  /** A single system call never asks for more than one request's worth of bytes. */
  ghost predicate CallLength(p: Config, n: nat, got: nat, asked: int) {
    1 <= n <= p.size && n <= asked - got
  }

  /** A helper's loop may end after any prefix when calls do not block, or when a signal, whose handler
      sets the quit flag, makes a blocking call fail. */
  predicate MayStop(p: Config, quit: bool) {
    p.contract.NonBlocking? || quit
  }

  ghost predicate ClientMustExit(p: Config, c: Client) {
    c.books.totalRead >= p.MaxBytes() || c.quit
  }

  ghost predicate ServerMustExit(p: Config, s: Server) {
    s.totalWritten >= p.MaxBytes() || s.quit
  }

  ghost predicate ClientEnabled(p: Config, st: State, a: ClientAction) {
    var c := st.c;
    match a
    case ClientExit => c.phase.CHead? && ClientMustExit(p, c)
    case ClientPoll(canRead, canWrite) =>
      && c.phase.CHead? && !ClientMustExit(p, c)
      && (canRead ==> st.response != [] || st.s.phase.SDone?)
      && (canWrite ==> |st.request| < p.requestCapacity || st.s.phase.SDone?)
    case ClientDispatch(raced) => c.phase.CPolled? && (raced ==> c.quit)
    case ClientReads(n) =>
      c.phase.CReading? && CallLength(p, n, c.phase.got, c.phase.asked) && n <= |st.response|
    case ClientReadReturns(t) =>
      && c.phase.CReading? && c.books.clock <= t < TWO_TO_64
      && (c.phase.got >= c.phase.asked || MayStop(p, c.quit) || (st.response == [] && st.s.phase.SDone?))
    case ClientStamps(t, began) => c.phase.CStamping? && c.books.clock <= t <= began < TWO_TO_64
    case ClientWrites(n) =>
      && c.phase.CWriting? && CallLength(p, n, c.phase.got, c.phase.asked)
      && |st.request| + n <= p.requestCapacity && !st.s.phase.SDone?
    case ClientWriteReturns =>
      && c.phase.CWriting?
      && (c.phase.got >= c.phase.asked || MayStop(p, c.quit) || st.s.phase.SDone?)
  }

  ghost predicate ServerEnabled(p: Config, st: State, a: ServerAction) {
    var s := st.s;
    match a
    case ServerExit => s.phase.SHead? && ServerMustExit(p, s)
    case ServerPoll(canRead, canWrite) =>
      && s.phase.SHead? && !ServerMustExit(p, s)
      && (canRead ==> st.request != [] || st.c.phase.CDone?)
      // until it has read something the server does not poll for writing: the flag is then arbitrary
      && (canWrite && s.armed ==> |st.response| < p.responseCapacity || st.c.phase.CDone?)
    case ServerDispatch(raced) => s.phase.SPolled? && (raced ==> s.quit)
    case ServerReads(n) =>
      s.phase.SReading? && CallLength(p, n, s.phase.got, s.phase.asked) && n <= |st.request|
    case ServerReadReturns =>
      && s.phase.SReading?
      && (s.phase.got >= s.phase.asked || MayStop(p, s.quit) || (st.request == [] && st.c.phase.CDone?))
    case ServerWrites(n) =>
      && s.phase.SWriting? && CallLength(p, n, s.phase.got, s.phase.asked)
      && |st.response| + n <= p.responseCapacity && !st.c.phase.CDone?
    case ServerWriteReturns =>
      && s.phase.SWriting?
      && (s.phase.got >= s.phase.asked || MayStop(p, s.quit) || st.c.phase.CDone?)
  }

  /** The bytes [off, off + n) of a buffer; an access outside it yields nothing usable. */
  function Part(buffer: seq<byte>, off: nat, n: nat): seq<byte> {
    if off + n <= |buffer| then buffer[off..off + n] else seq(n, i => 0)
  }

  ghost function ClientApply(p: Config, st: State, a: ClientAction): State
    requires p.size > 0 && ClientEnabled(p, st, a)
  {
    var c := st.c;
    match a
    case ClientExit => st.(c := c.(phase := CDone))
    case ClientPoll(canRead, canWrite) => st.(c := c.(phase := CPolled(canRead, canWrite)))
    case ClientDispatch(raced) =>
      if c.quit && !raced then st.(c := c.(phase := CDone))
      else if c.phase.canRead && !c.quit then
        st.(c := c.(phase := CReading(0, c.books.outstandingBytes, c.phase.canWrite)))
      else st.(c := c.(phase := CStamping(c.phase.canWrite)))
    case ClientReads(n) =>
      st.(c := c.(phase := CReading(c.phase.got + n, c.phase.asked, c.phase.canWrite),
                  readBuffer := Splice(c.readBuffer, c.phase.got, st.response[..n])),
          response := st.response[n..])
    case ClientReadReturns(t) =>
      st.(c := c.(phase := CStamping(c.phase.canWrite), books := AfterRead(c.books, p.size, c.phase.got, t)))
    case ClientStamps(t, began) =>
      var stamped := AfterStamp(c.books, p.rate, t);
      if c.phase.canWrite && stamped.outstandingBytes < p.Window() && !c.quit then
        st.(c := c.(phase := CWriting(0, p.Window() - stamped.outstandingBytes, began), books := stamped))
      else
        st.(c := c.(phase := CHead, books := stamped))
    case ClientWrites(n) =>
      st.(c := c.(phase := CWriting(c.phase.got + n, c.phase.asked, c.phase.began)),
          request := st.request + Part(p.payload, c.phase.got, n))
    case ClientWriteReturns =>
      // a write to a closed reader raises SIGPIPE, whose handler sets the quit flag
      st.(c := c.(phase := CHead,
                  books := AfterWrite(c.books, p.size, c.phase.got, c.phase.began),
                  quit := c.quit || (c.phase.got < c.phase.asked && st.s.phase.SDone?)))
  }

  ghost function ServerApply(p: Config, st: State, a: ServerAction): State
    requires ServerEnabled(p, st, a)
  {
    var s := st.s;
    match a
    case ServerExit => st.(s := s.(phase := SDone))
    case ServerPoll(canRead, canWrite) => st.(s := s.(phase := SPolled(canRead, canWrite)))
    case ServerDispatch(raced) =>
      if s.quit && !raced then st.(s := s.(phase := SDone))
      else if s.quit then st.(s := s.(phase := SHead))
      else if s.phase.canRead then
        var toRead := if s.outstandingBytes > p.Window() then s.outstandingBytes else p.Window();
        st.(s := s.(phase := SReading(0, toRead, s.phase.canWrite)))
      else if s.phase.canWrite then st.(s := s.(phase := SWriting(0, s.outstandingBytes)))
      else st.(s := s.(phase := SHead))
    case ServerReads(n) =>
      st.(s := s.(phase := SReading(s.phase.got + n, s.phase.asked, s.phase.canWrite),
                  buffer := Splice(s.buffer, s.phase.got, st.request[..n]),
                  overrun := s.overrun || s.phase.got + n > p.Window()),
          request := st.request[n..])
    case ServerReadReturns =>
      var toWrite := s.outstandingBytes + s.phase.got;
      st.(s := s.(phase := if s.phase.canWrite && !s.quit then SWriting(0, toWrite) else SHead,
                  totalRead := s.totalRead + s.phase.got,
                  outstandingBytes := s.outstandingBytes + s.phase.got,
                  armed := s.armed || s.phase.got != 0))
    case ServerWrites(n) =>
      st.(s := s.(phase := SWriting(s.phase.got + n, s.phase.asked),
                  overrun := s.overrun || s.phase.got + n > p.Window()),
          response := st.response + Part(s.buffer, s.phase.got, n))
    case ServerWriteReturns =>
      st.(s := s.(phase := SHead,
                  totalWritten := s.totalWritten + s.phase.got,
                  outstandingBytes := s.outstandingBytes - s.phase.got,
                  quit := s.quit || (s.phase.got < s.phase.asked && st.c.phase.CDone?)))
  }

  ghost predicate Enabled(p: Config, st: State, a: Action) {
    match a
    case ByClient(ca) => ClientEnabled(p, st, ca)
    case ByServer(sa) => ServerEnabled(p, st, sa)
    case InterruptClient => p.interruptible
    case InterruptServer => p.interruptible
  }

  ghost function Apply(p: Config, st: State, a: Action): State
    requires p.size > 0 && Enabled(p, st, a)
  {
    match a
    case ByClient(ca) => ClientApply(p, st, ca)
    case ByServer(sa) => ServerApply(p, st, sa)
    case InterruptClient => st.(c := st.c.(quit := true))
    case InterruptServer => st.(s := st.s.(quit := true))
  }

  ghost predicate Next(p: Config, st: State, st': State) {
    p.Valid() && exists a :: Enabled(p, st, a) && st' == Apply(p, st, a)
  }

  // ---------- bytes in flight ----------

  /** Totals including what an unfinished helper call has already moved. */
  ghost function ClientWritten(st: State): int {
    st.c.books.totalWritten + (if st.c.phase.CWriting? then st.c.phase.got else 0)
  }

  ghost function ClientRead(st: State): int {
    st.c.books.totalRead + (if st.c.phase.CReading? then st.c.phase.got else 0)
  }

  ghost function ServerRead(st: State): int {
    st.s.totalRead + (if st.s.phase.SReading? then st.s.phase.got else 0)
  }

  ghost function ServerWritten(st: State): int {
    st.s.totalWritten + (if st.s.phase.SWriting? then st.s.phase.got else 0)
  }

  /** No byte is lost, duplicated or invented on the way round. */
  ghost predicate Conserved(st: State) {
    && ClientWritten(st) == ServerRead(st) + |st.request|
    && ServerWritten(st) == ClientRead(st) + |st.response|
    && st.c.books.outstandingBytes == st.c.books.totalWritten - st.c.books.totalRead
    && st.s.outstandingBytes == st.s.totalRead - st.s.totalWritten
  }

  ghost predicate ClientBounds(p: Config, st: State) {
    var b := st.c.books;
    && 0 <= b.outstandingBytes <= p.Window()
    && 0 <= b.totalRead && 0 <= b.totalWritten
    && |st.c.readBuffer| == p.Window()
    && |st.request| <= p.requestCapacity
    && (st.c.phase.CPolled? || st.c.phase.CReading? ==> b.totalRead < p.MaxBytes())
    && (st.c.phase.CReading? ==> st.c.phase.got <= st.c.phase.asked == b.outstandingBytes)
    && (st.c.phase.CWriting? ==> st.c.phase.got <= st.c.phase.asked == p.Window() - b.outstandingBytes)
    && b.clock < TWO_TO_64 && (st.c.phase.CWriting? ==> b.clock <= st.c.phase.began < TWO_TO_64)
  }

  ghost predicate ServerBounds(p: Config, st: State) {
    var s := st.s;
    && 0 <= s.outstandingBytes && 0 <= s.totalRead && 0 <= s.totalWritten
    && |s.buffer| == p.Window() && !s.overrun
    && |st.response| <= p.responseCapacity
    && s.outstandingBytes <= p.Window()
    && s.totalWritten < p.MaxBytes() + p.Window()
    && (s.phase.SPolled? || s.phase.SReading? || s.phase.SWriting? ==> s.totalWritten < p.MaxBytes())
    && (s.phase.SReading? ==> s.phase.got <= s.phase.asked == p.Window())
    && (s.phase.SWriting? ==> s.phase.got <= s.phase.asked == s.outstandingBytes)
    && (!s.armed ==> s.totalRead == 0)
  }

  ghost predicate BytesInv(p: Config, st: State) {
    && p.Valid()
    && Conserved(st)
    && ClientBounds(p, st)
    && ServerBounds(p, st)
  }

  /** What the window gives the server, which checks nothing itself. */
  lemma WindowBoundsServer(p: Config, st: State)
    requires BytesInv(p, st)
    ensures 0 <= ClientWritten(st) - ClientRead(st) <= p.Window()
    ensures ServerRead(st) - ServerWritten(st) + |st.request| + |st.response| == ClientWritten(st) - ClientRead(st)
    ensures 0 <= st.s.outstandingBytes <= p.Window()
    ensures ServerRead(st) - ServerWritten(st) <= p.Window()
    ensures !st.s.armed ==> st.response == []
  {}

  lemma InitBytes(p: Config, st: State)
    requires p.Valid() && Init(p, st)
    ensures BytesInv(p, st)
  {}

  lemma ClientControlKeepsBytes(p: Config, st: State, a: ClientAction)
    requires a.Control() && BytesInv(p, st) && ClientEnabled(p, st, a)
    ensures BytesInv(p, ClientApply(p, st, a))
  {}

  lemma ClientReadingKeepsBytes(p: Config, st: State, a: ClientAction)
    requires a.Reading() && BytesInv(p, st) && ClientEnabled(p, st, a)
    ensures BytesInv(p, ClientApply(p, st, a))
  {}

  lemma ClientWritingKeepsBytes(p: Config, st: State, a: ClientAction)
    requires a.Writing() && BytesInv(p, st) && ClientEnabled(p, st, a)
    ensures BytesInv(p, ClientApply(p, st, a))
  {}

  lemma ServerControlKeepsBytes(p: Config, st: State, a: ServerAction)
    requires a.Control() && BytesInv(p, st) && ServerEnabled(p, st, a)
    ensures BytesInv(p, ServerApply(p, st, a))
  {}

  lemma ServerReadingKeepsBytes(p: Config, st: State, a: ServerAction)
    requires a.Reading() && BytesInv(p, st) && ServerEnabled(p, st, a)
    ensures BytesInv(p, ServerApply(p, st, a))
  {}

  lemma ServerWritingKeepsBytes(p: Config, st: State, a: ServerAction)
    requires a.Writing() && BytesInv(p, st) && ServerEnabled(p, st, a)
    ensures BytesInv(p, ServerApply(p, st, a))
  {}

  lemma ClientKeepsBytes(p: Config, st: State, a: ClientAction)
    requires BytesInv(p, st) && ClientEnabled(p, st, a)
    ensures BytesInv(p, ClientApply(p, st, a))
  {
    if a.Control() { ClientControlKeepsBytes(p, st, a); }
    else if a.Reading() { ClientReadingKeepsBytes(p, st, a); }
    else { ClientWritingKeepsBytes(p, st, a); }
  }

  lemma ServerKeepsBytes(p: Config, st: State, a: ServerAction)
    requires BytesInv(p, st) && ServerEnabled(p, st, a)
    ensures BytesInv(p, ServerApply(p, st, a))
  {
    if a.Control() { ServerControlKeepsBytes(p, st, a); }
    else if a.Reading() { ServerReadingKeepsBytes(p, st, a); }
    else { ServerWritingKeepsBytes(p, st, a); }
  }

  lemma InterruptKeepsBytes(p: Config, st: State)
    requires BytesInv(p, st)
    ensures BytesInv(p, st.(c := st.c.(quit := true))) && BytesInv(p, st.(s := st.s.(quit := true)))
  {}

  lemma StepKeepsBytes(p: Config, st: State, st': State)
    requires BytesInv(p, st) && Next(p, st, st')
    ensures BytesInv(p, st')
  {
    var a :| Enabled(p, st, a) && st' == Apply(p, st, a);
    match a
    case ByClient(ca) => ClientKeepsBytes(p, st, ca);
    case ByServer(sa) => ServerKeepsBytes(p, st, sa);
    case _ => InterruptKeepsBytes(p, st);
  }
}
