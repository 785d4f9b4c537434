/** Which bytes cross the channels, over both kinds of transport and in interrupted runs. What passes is
    observed at the channels themselves: bytes that appear at the end of one have been sent, bytes that
    disappear from its front have been taken. */
module EchoContent {
  import opened Books
  import opened Bytes
  import opened Systems
  import opened Echo
  import opened EchoProgress

  /** A state with all that has passed either end of either channel, what the current call of each process
      has moved, and whether the server has so far neither read on top of unsent bytes nor left a write
      with bytes unsent. */
  datatype Seen = Seen(
    st: State,
    clientSent: seq<byte>, serverTook: seq<byte>, serverSent: seq<byte>, clientGot: seq<byte>,
    clientCall: seq<byte>, serverCall: seq<byte>,
    clean: bool)

  /** Bytes that a step has put at the end of a channel, and that it has taken from its front. */
  function Came(before: seq<byte>, after: seq<byte>): seq<byte> {
    if |before| <= |after| then after[|before|..] else []
  }

  function Went(before: seq<byte>, after: seq<byte>): seq<byte> {
    if |after| <= |before| then before[..|before| - |after|] else []
  }

  ghost function ClientCallAfter(o: Seen, st': State): seq<byte> {
    if o.st.c.phase.CReading? && st'.c.phase.CReading? then o.clientCall + Went(o.st.response, st'.response)
    else if o.st.c.phase.CWriting? && st'.c.phase.CWriting? then o.clientCall + Came(o.st.request, st'.request)
    else []
  }

  ghost function ServerCallAfter(o: Seen, st': State): seq<byte> {
    if o.st.s.phase.SReading? && st'.s.phase.SReading? then o.serverCall + Went(o.st.request, st'.request)
    else if o.st.s.phase.SWriting? && st'.s.phase.SWriting? then o.serverCall + Came(o.st.response, st'.response)
    else []
  }

  ghost predicate ReadsOnTop(st: State, a: Action) {
    a.ByServer? && a.sa.ServerReads? && st.s.outstandingBytes > 0
  }

  ghost predicate LeavesUnsent(st: State, a: Action) {
    a.ByServer? && a.sa.ServerWriteReturns? && st.s.phase.SWriting? && st.s.phase.got < st.s.phase.asked
  }

  ghost function Observe(o: Seen, a: Action, st': State): Seen {
    Seen(st',
         o.clientSent + Came(o.st.request, st'.request), o.serverTook + Went(o.st.request, st'.request),
         o.serverSent + Came(o.st.response, st'.response), o.clientGot + Went(o.st.response, st'.response),
         if a.ByClient? then ClientCallAfter(o, st') else o.clientCall,
         if a.ByServer? then ServerCallAfter(o, st') else o.serverCall,
         o.clean && !ReadsOnTop(o.st, a) && !LeavesUnsent(o.st, a))
  }

  ghost predicate SeenNext(p: Config, o: Seen, o': Seen) {
    p.Valid() && exists a :: Enabled(p, o.st, a) && o' == Observe(o, a, Apply(p, o.st, a))
  }

  // ---------- what holds of what is seen ----------

  /** The bytes that lie in the server's buffer for the client. */
  ghost function Unsent(s: Server): seq<byte> {
    match s.phase
    case SReading(got, _, _) => Take(s.buffer, if s.outstandingBytes == 0 then got else s.outstandingBytes)
    case SWriting(got, asked) => Drop(Take(s.buffer, asked), got)
    case _ => Take(s.buffer, s.outstandingBytes)
  }

  /** Channels lose, add and reorder nothing. */
  ghost predicate ChannelsInOrder(o: Seen) {
    o.clientSent == o.serverTook + o.st.request && o.serverSent == o.clientGot + o.st.response
  }

  /** Calls move the bytes at the start of their buffers. */
  ghost predicate CallsInOrder(p: Config, o: Seen) {
    && (match o.st.c.phase
        case CReading(got, _, _) => got <= |o.st.c.readBuffer| && o.clientCall == o.st.c.readBuffer[..got]
        case CWriting(got, _, _) => got <= |p.payload| && o.clientCall == p.payload[..got]
        case _ => true)
    && (match o.st.s.phase
        case SReading(got, _, _) => got <= |o.st.s.buffer| && o.serverCall == o.st.s.buffer[..got]
        case SWriting(got, _) => got <= |o.st.s.buffer| && o.serverCall == o.st.s.buffer[..got]
        case _ => true)
  }

  /** The counters count what has passed. */
  ghost predicate Counted(o: Seen) {
    && |o.clientSent| == ClientWritten(o.st) && |o.serverTook| == ServerRead(o.st)
    && |o.serverSent| == ServerWritten(o.st) && |o.clientGot| == ClientRead(o.st)
  }

  ghost predicate EchoesInOrder(o: Seen) {
    o.clean ==>
      && o.serverTook == o.serverSent + Unsent(o.st.s)
      && (o.st.s.phase.SReading? && o.st.s.outstandingBytes > 0 ==> o.st.s.phase.got == 0)
  }

  ghost predicate SeenInv(p: Config, o: Seen) {
    BytesInv(p, o.st) && Counted(o) && ChannelsInOrder(o) && CallsInOrder(p, o) && EchoesInOrder(o)
  }

  // ---------- channels ----------

  lemma Appended(sent: seq<byte>, took: seq<byte>, before: seq<byte>, data: seq<byte>)
    requires sent == took + before
    ensures Came(before, before + data) == data && (|data| > 0 ==> Went(before, before + data) == [])
    ensures sent + data == took + (before + data)
  {
    assert (took + before) + data == took + (before + data);
  }

  lemma Removed(sent: seq<byte>, took: seq<byte>, before: seq<byte>, n: nat)
    requires sent == took + before && n <= |before|
    ensures Went(before, before[n..]) == before[..n] && (n > 0 ==> Came(before, before[n..]) == [])
    ensures sent == (took + before[..n]) + before[n..]
  {
    assert before == before[..n] + before[n..];
  }

  lemma Untouched(before: seq<byte>, s: seq<byte>)
    ensures Came(before, before) == [] && Went(before, before) == [] && s + [] == s
  {}

  lemma ClientKeepsChannels(p: Config, o: Seen, a: ClientAction)
    requires p.Valid() && ChannelsInOrder(o) && ClientEnabled(p, o.st, a)
    ensures ChannelsInOrder(Observe(o, ByClient(a), ClientApply(p, o.st, a)))
  {
    Untouched(o.st.request, o.clientSent);
    Untouched(o.st.request, o.serverTook);
    Untouched(o.st.response, o.serverSent);
    Untouched(o.st.response, o.clientGot);
    match a {
      case ClientReads(n) => Removed(o.serverSent, o.clientGot, o.st.response, n);
      case ClientWrites(n) => Appended(o.clientSent, o.serverTook, o.st.request, Part(p.payload, o.st.c.phase.got, n));
      case _ =>
    }
  }

  lemma ServerKeepsChannels(p: Config, o: Seen, a: ServerAction)
    requires p.Valid() && ChannelsInOrder(o) && ServerEnabled(p, o.st, a)
    ensures ChannelsInOrder(Observe(o, ByServer(a), ServerApply(p, o.st, a)))
  {
    Untouched(o.st.request, o.clientSent);
    Untouched(o.st.request, o.serverTook);
    Untouched(o.st.response, o.serverSent);
    Untouched(o.st.response, o.clientGot);
    match a {
      case ServerReads(n) => Removed(o.clientSent, o.serverTook, o.st.request, n);
      case ServerWrites(n) =>
        Appended(o.serverSent, o.clientGot, o.st.response, Part(o.st.s.buffer, o.st.s.phase.got, n));
      case _ =>
    }
  }

  lemma ClientKeepsCounted(p: Config, o: Seen, a: ClientAction)
    requires p.Valid() && Counted(o) && ClientEnabled(p, o.st, a)
    ensures Counted(Observe(o, ByClient(a), ClientApply(p, o.st, a)))
  {}

  lemma ServerKeepsCounted(p: Config, o: Seen, a: ServerAction)
    requires p.Valid() && Counted(o) && ServerEnabled(p, o.st, a)
    ensures Counted(Observe(o, ByServer(a), ServerApply(p, o.st, a)))
  {}

  // ---------- calls ----------

  lemma PartMore(buffer: seq<byte>, got: nat, n: nat)
    requires got + n <= |buffer|
    ensures buffer[..got] + Part(buffer, got, n) == buffer[..got + n]
  {}

  lemma SpliceMore(buffer: seq<byte>, got: nat, data: seq<byte>)
    requires got + |data| <= |buffer|
    ensures Splice(buffer, got, data)[..got + |data|] == buffer[..got] + data
  {}

  lemma ClientKeepsCalls(p: Config, o: Seen, a: ClientAction)
    requires BytesInv(p, o.st) && ChannelsInOrder(o) && CallsInOrder(p, o) && ClientEnabled(p, o.st, a)
    ensures CallsInOrder(p, Observe(o, ByClient(a), ClientApply(p, o.st, a)))
  {
    match a {
      case ClientReads(n) =>
        Removed(o.serverSent, o.clientGot, o.st.response, n);
        SpliceMore(o.st.c.readBuffer, o.st.c.phase.got, o.st.response[..n]);
      case ClientWrites(n) =>
        Appended(o.clientSent, o.serverTook, o.st.request, Part(p.payload, o.st.c.phase.got, n));
        PartMore(p.payload, o.st.c.phase.got, n);
      case _ =>
    }
  }

  lemma ServerKeepsCalls(p: Config, o: Seen, a: ServerAction)
    requires BytesInv(p, o.st) && ChannelsInOrder(o) && CallsInOrder(p, o) && ServerEnabled(p, o.st, a)
    ensures CallsInOrder(p, Observe(o, ByServer(a), ServerApply(p, o.st, a)))
  {
    match a {
      case ServerReads(n) =>
        Removed(o.clientSent, o.serverTook, o.st.request, n);
        SpliceMore(o.st.s.buffer, o.st.s.phase.got, o.st.request[..n]);
      case ServerWrites(n) =>
        Appended(o.serverSent, o.clientGot, o.st.response, Part(o.st.s.buffer, o.st.s.phase.got, n));
        PartMore(o.st.s.buffer, o.st.s.phase.got, n);
      case _ =>
    }
  }

  // ---------- the echo ----------

  lemma ClientKeepsEcho(p: Config, o: Seen, a: ClientAction)
    requires BytesInv(p, o.st) && ChannelsInOrder(o) && EchoesInOrder(o) && ClientEnabled(p, o.st, a)
    ensures EchoesInOrder(Observe(o, ByClient(a), ClientApply(p, o.st, a)))
  {
    Untouched(o.st.request, o.serverTook);
    Untouched(o.st.response, o.serverSent);
    match a {
      case ClientReads(n) => Removed(o.serverSent, o.clientGot, o.st.response, n);
      case ClientWrites(n) => Appended(o.clientSent, o.serverTook, o.st.request, Part(p.payload, o.st.c.phase.got, n));
      case _ =>
    }
  }

  lemma ServerReadsKeepEcho(p: Config, o: Seen, n: nat)
    requires BytesInv(p, o.st) && ChannelsInOrder(o) && EchoesInOrder(o) && ServerEnabled(p, o.st, ServerReads(n))
    ensures EchoesInOrder(Observe(o, ByServer(ServerReads(n)), ServerApply(p, o.st, ServerReads(n))))
  {
    Removed(o.clientSent, o.serverTook, o.st.request, n);
    Untouched(o.st.response, o.serverSent);
    SpliceMore(o.st.s.buffer, o.st.s.phase.got, o.st.request[..n]);
  }

  lemma UnsentShrinks(buffer: seq<byte>, got: nat, n: nat, asked: nat, sent: seq<byte>, took: seq<byte>)
    requires got + n <= asked <= |buffer| && took == sent + Drop(Take(buffer, asked), got)
    ensures took == (sent + Part(buffer, got, n)) + Drop(Take(buffer, asked), got + n)
  {
    assert Drop(Take(buffer, asked), got) == Part(buffer, got, n) + Drop(Take(buffer, asked), got + n);
  }

  lemma ServerWritesKeepEcho(p: Config, o: Seen, n: nat)
    requires BytesInv(p, o.st) && ChannelsInOrder(o) && EchoesInOrder(o) && ServerEnabled(p, o.st, ServerWrites(n))
    ensures EchoesInOrder(Observe(o, ByServer(ServerWrites(n)), ServerApply(p, o.st, ServerWrites(n))))
  {
    Appended(o.serverSent, o.clientGot, o.st.response, Part(o.st.s.buffer, o.st.s.phase.got, n));
    Untouched(o.st.request, o.serverTook);
    if o.clean {
      UnsentShrinks(o.st.s.buffer, o.st.s.phase.got, n, o.st.s.phase.asked, o.serverSent, o.serverTook);
    }
  }

  lemma ServerControlKeepsEcho(p: Config, o: Seen, a: ServerAction)
    requires BytesInv(p, o.st) && ChannelsInOrder(o) && EchoesInOrder(o) && ServerEnabled(p, o.st, a)
    requires !a.ServerReads? && !a.ServerWrites?
    ensures EchoesInOrder(Observe(o, ByServer(a), ServerApply(p, o.st, a)))
  {
    Untouched(o.st.request, o.serverTook);
    Untouched(o.st.response, o.serverSent);
    var o' := Observe(o, ByServer(a), ServerApply(p, o.st, a));
    if o'.clean { assert Unsent(o'.st.s) == Unsent(o.st.s); }
  }

  lemma ServerKeepsEcho(p: Config, o: Seen, a: ServerAction)
    requires BytesInv(p, o.st) && ChannelsInOrder(o) && EchoesInOrder(o) && ServerEnabled(p, o.st, a)
    ensures EchoesInOrder(Observe(o, ByServer(a), ServerApply(p, o.st, a)))
  {
    match a {
      case ServerReads(n) => ServerReadsKeepEcho(p, o, n);
      case ServerWrites(n) => ServerWritesKeepEcho(p, o, n);
      case _ => ServerControlKeepsEcho(p, o, a);
    }
  }

  // ---------- every run ----------

  lemma InterruptKeepsSeen(p: Config, o: Seen, a: Action)
    requires SeenInv(p, o) && Enabled(p, o.st, a) && (a.InterruptClient? || a.InterruptServer?)
    ensures
      var o' := Observe(o, a, Apply(p, o.st, a));
      Counted(o') && ChannelsInOrder(o') && CallsInOrder(p, o') && EchoesInOrder(o')
  {
    Untouched(o.st.request, o.clientSent);
    Untouched(o.st.request, o.serverTook);
    Untouched(o.st.response, o.serverSent);
    Untouched(o.st.response, o.clientGot);
  }

  lemma StepKeepsSeen(p: Config, o: Seen, o': Seen)
    requires SeenInv(p, o) && SeenNext(p, o, o')
    ensures SeenInv(p, o')
  {
    var a :| Enabled(p, o.st, a) && o' == Observe(o, a, Apply(p, o.st, a));
    StepKeepsBytes(p, o.st, o'.st);
    match a {
      case ByClient(ca) =>
        ClientKeepsCounted(p, o, ca);
        ClientKeepsChannels(p, o, ca);
        ClientKeepsCalls(p, o, ca);
        ClientKeepsEcho(p, o, ca);
      case ByServer(sa) =>
        ServerKeepsCounted(p, o, sa);
        ServerKeepsChannels(p, o, sa);
        ServerKeepsCalls(p, o, sa);
        ServerKeepsEcho(p, o, sa);
      case _ => InterruptKeepsSeen(p, o, a);
    }
  }

  ghost function SeenSystem(p: Config): System<Seen> {
    System((o: Seen) => p.Valid() && Init(p, o.st) && o == Seen(o.st, [], [], [], [], [], [], true),
           (o: Seen, o': Seen) => SeenNext(p, o, o'), (o: Seen) => SeenInv(p, o),
           (o: Seen) => BothDone(o.st), (o: Seen) => 0)
  }

  lemma SeenInductive(p: Config)
    ensures Inductive(SeenSystem(p))
  {
    var sys := SeenSystem(p);
    forall o | sys.init(o) ensures sys.inv(o) { InitBytes(p, o.st); }
    forall o, o' | sys.inv(o) && sys.next(o, o') ensures sys.inv(o') { StepKeepsSeen(p, o, o'); }
  }

  /** The content of the channels, over blocking and non-blocking transports, with any partial transfers and
      interrupts: what the client has read is a prefix of what the server has sent, and what the server has
      read a prefix of what the client has written; every call moves the bytes at the start of its buffer;
      and as long as the server has not read on top of unsent bytes nor left a write with bytes unsent, what
      it has sent is a prefix of what it has read, so the client reads back what it has written. The byte
      counters of both processes count exactly these bytes. */
  lemma ContentInOrder(p: Config, o: Seen)
    requires Reachable(SeenSystem(p), o)
    ensures o.clientSent == o.serverTook + o.st.request && o.serverSent == o.clientGot + o.st.response
    ensures o.st.c.phase.CReading? ==> o.clientCall == Take(o.st.c.readBuffer, o.st.c.phase.got)
    ensures o.st.c.phase.CWriting? ==> o.clientCall == Take(p.payload, o.st.c.phase.got)
    ensures o.st.s.phase.SReading? || o.st.s.phase.SWriting? ==> o.serverCall == Take(o.st.s.buffer, o.st.s.phase.got)
    ensures o.clean ==> o.serverSent <= o.serverTook && o.clientGot <= o.clientSent
    ensures |o.clientSent| == ClientWritten(o.st) && |o.serverTook| == ServerRead(o.st)
    ensures |o.serverSent| == ServerWritten(o.st) && |o.clientGot| == ClientRead(o.st)
  {
    SeenInductive(p);
    InvariantWhereverReachable(SeenSystem(p), o);
    if o.clean {
      RoundTheLoop(o.clientSent, o.serverTook, o.serverSent, o.clientGot, o.st.request, Unsent(o.st.s), o.st.response);
    }
  }

  lemma RoundTheLoop(clientSent: seq<byte>, serverTook: seq<byte>, serverSent: seq<byte>, clientGot: seq<byte>,
                     request: seq<byte>, unsent: seq<byte>, response: seq<byte>)
    requires clientSent == serverTook + request && serverSent == clientGot + response
    requires serverTook == serverSent + unsent
    ensures serverSent <= serverTook && clientGot <= clientSent
  {
    assert clientSent == clientGot + (response + (unsent + request));
  }

  /** Every run of the protocol can be watched in this way. */
  lemma {:induction false} RunsAreSeen(p: Config, run: seq<State>) returns (seen: seq<Seen>)
    requires p.Valid() && IsRun(ByteSystem(p), run) && Init(p, run[0])
    ensures IsRun(SeenSystem(p), seen) && SeenSystem(p).init(seen[0]) && |seen| == |run|
    ensures forall i :: 0 <= i < |run| ==> seen[i].st == run[i]
  {
    var n := |run| - 1;
    if n == 0 {
      seen := [Seen(run[0], [], [], [], [], [], [], true)];
    } else {
      FrontIsRun(ByteSystem(p), run);
      assert run[..n][n - 1] == run[n - 1];
      var front := RunsAreSeen(p, run[..n]);
      var last := StepIsSeen(p, front[n - 1], run[n - 1], run[n]);
      Append(SeenSystem(p), front, last);
      seen := front + [last];
    }
  }

  lemma StepIsSeen(p: Config, o: Seen, st: State, st': State) returns (o': Seen)
    requires p.Valid() && ByteSystem(p).next(st, st') && o.st == st
    ensures SeenSystem(p).next(o, o') && o'.st == st'
  {
    var a :| Enabled(p, st, a) && st' == Apply(p, st, a);
    o' := Observe(o, a, st');
  }
}
