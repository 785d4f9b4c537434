/** The client's books: the byte and request counters of its `communicate` loop and the array
    of latencies that two cursors walk over, with the history needed to say what a slot means. */
module Books {
  import opened Arithmetic

  const TWO_TO_64: nat := 0x1_0000_0000_0000_0000

  /** The value an unsigned 64-bit variable holds after an arithmetic result is stored in it. */
  function Wrap64(x: int): (r: nat)
    ensures r < TWO_TO_64
    ensures 0 <= x < TWO_TO_64 ==> r == x
  {
    x % TWO_TO_64
  }

  function Elapsed(from: int, to: int): int {
    to - from
  }

  /** The counters are those of the C function. The remaining fields are history: for every
      request the time it was stamped, the time its write began and the time it was read, and
      the bytes that the per-call division into whole requests left over. */
  datatype Books = Books(
    outstandingBytes: int,
    totalRead: int,
    totalWritten: int,
    outstandingReqs: nat,
    numReqsRead: nat,
    numReqsSent: nat,
    times: seq<nat>,
    clock: nat,
    stampedAt: seq<nat>,
    wroteAt: seq<nat>,
    readAt: seq<nat>,
    wholeWritten: nat,
    spareWritten: nat,
    spareRead: nat)

  function Open(times: seq<nat>, clock: nat): Books {
    Books(0, 0, 0, 0, 0, 0, times, clock, [], [], [], 0, 0, 0)
  }

  function Repeat(n: nat, t: nat): (r: seq<nat>)
    ensures |r| == n && forall i :: 0 <= i < n ==> r[i] == t
  {
    seq(n, i => t)
  }

  /** Slots [start, start + n) that exist are set to t. */
  function Stamped(times: seq<nat>, start: nat, n: nat, t: nat): (r: seq<nat>)
    ensures |r| == |times|
    ensures forall j :: 0 <= j < |r| ==> r[j] == if start <= j < start + n then t else times[j]
  {
    seq(|times|, j requires 0 <= j < |times| => if start <= j < start + n then t else times[j])
  }

  /** Slots [start, start + n) that exist are replaced by their distance to t. */
  function Differenced(times: seq<nat>, start: nat, n: nat, t: nat): (r: seq<nat>)
    ensures |r| == |times|
    ensures forall j :: 0 <= j < |r| ==> r[j] == if start <= j < start + n then Wrap64(t - times[j]) else times[j]
  {
    seq(|times|, j requires 0 <= j < |times| => if start <= j < start + n then Wrap64(t - times[j]) else times[j])
  }

  /** What the loop records when a read call returns. */
  function AfterRead(b: Books, size: nat, moved: nat, t: nat): Books
    requires size > 0
  {
    var whole := moved / size;
    b.(outstandingBytes := b.outstandingBytes - moved,
       totalRead := b.totalRead + moved,
       outstandingReqs := Wrap64(b.outstandingReqs - whole),
       times := Differenced(b.times, b.numReqsRead, whole, t),
       numReqsRead := b.numReqsRead + whole,
       clock := t,
       readAt := b.readAt + Repeat(whole, t),
       spareRead := b.spareRead + moved % size)
  }

  /** The loop stamps a full window's worth of slots in every pass in which the window is not full. */
  function AfterStamp(b: Books, rate: nat, t: nat): Books {
    if b.outstandingReqs < rate then
      var n := rate - b.outstandingReqs;
      b.(times := Stamped(b.times, b.numReqsSent, n, t),
         numReqsSent := b.numReqsSent + n,
         clock := t,
         stampedAt := b.stampedAt + Repeat(n, t))
    else b
  }

  /** What the loop records when a write call that began at time t returns. */
  function AfterWrite(b: Books, size: nat, moved: nat, t: nat): Books
    requires size > 0
  {
    var whole := moved / size;
    b.(outstandingBytes := b.outstandingBytes + moved,
       totalWritten := b.totalWritten + moved,
       outstandingReqs := Wrap64(b.outstandingReqs + whole),
       clock := t,
       wroteAt := b.wroteAt + Repeat(whole, t),
       wholeWritten := b.wholeWritten + whole,
       spareWritten := b.spareWritten + moved % size)
  }

  /** The prefix length the client reports. */
  function Reported(b: Books, count: nat): nat {
    if b.numReqsRead > count then count else b.numReqsRead
  }

  // ---------- the request counters against the byte counters ----------

  /** Every byte is booked either as part of a whole request or as a spare byte of some call. */
  ghost predicate DriftLedger(b: Books, size: nat) {
    && b.outstandingBytes == b.totalWritten - b.totalRead
    && b.totalWritten == size * b.wholeWritten + b.spareWritten
    && b.totalRead == size * b.numReqsRead + b.spareRead
    && b.outstandingReqs == Wrap64(b.wholeWritten - b.numReqsRead)
  }

  lemma WrapAgain(x: int, y: int)
    ensures Wrap64(Wrap64(x) + y) == Wrap64(x + y)
  {
    var q := x / TWO_TO_64;
    assert x == q * TWO_TO_64 + Wrap64(x);
    assert (Wrap64(x) + y) % TWO_TO_64 == (x + y - q * TWO_TO_64) % TWO_TO_64;
  }

  lemma ReadKeepsDrift(b: Books, size: nat, moved: nat, t: nat)
    requires size > 0 && DriftLedger(b, size)
    ensures DriftLedger(AfterRead(b, size, moved, t), size)
  {
    DivMod(moved, size);
    Distribute(size, b.numReqsRead, moved / size);
    WrapAgain(b.wholeWritten - b.numReqsRead, -(moved / size));
  }

  lemma WriteKeepsDrift(b: Books, size: nat, moved: nat, t: nat)
    requires size > 0 && DriftLedger(b, size)
    ensures DriftLedger(AfterWrite(b, size, moved, t), size)
  {
    DivMod(moved, size);
    Distribute(size, b.wholeWritten, moved / size);
    WrapAgain(b.wholeWritten - b.numReqsRead, moved / size);
  }

  lemma StampKeepsDrift(b: Books, size: nat, rate: nat, t: nat)
    requires DriftLedger(b, size)
    ensures DriftLedger(AfterStamp(b, rate, t), size)
  {}

  /** What the ledger says of the two windows: they differ by exactly the spare bytes. */
  lemma DriftIsTheSpareBytes(b: Books, size: nat)
    requires size > 0 && DriftLedger(b, size)
    ensures b.outstandingBytes - size * (b.wholeWritten - b.numReqsRead) == b.spareWritten - b.spareRead
    ensures b.totalRead - size * b.numReqsRead == b.spareRead
  {
    Distribute(size, b.wholeWritten, b.numReqsRead);
  }

  // ---------- the timestamp array ----------

  /** Slots below the read cursor hold finished latencies, slots from there to the send cursor
      hold raw stamps; histories only grow, so a finished slot is never touched again. */
  ghost predicate SlotsMeanHistory(b: Books) {
    && |b.stampedAt| == b.numReqsSent
    && |b.readAt| == b.numReqsRead
    && b.numReqsRead <= b.numReqsSent
    && (forall j :: 0 <= j < |b.times| && j < b.numReqsRead ==>
          b.times[j] == Wrap64(Elapsed(b.stampedAt[j], b.readAt[j])))
    && (forall j :: 0 <= j < |b.times| && b.numReqsRead <= j < b.numReqsSent ==> b.times[j] == b.stampedAt[j])
  }

  /** No request is stamped after its write began, nor read before it. */
  ghost predicate TimesOrdered(b: Books) {
    && |b.wroteAt| == b.numReqsRead + b.outstandingReqs
    && |b.wroteAt| <= |b.stampedAt|
    && |b.readAt| == b.numReqsRead
    && (forall j :: 0 <= j < |b.stampedAt| ==> b.stampedAt[j] <= b.clock)
    && (forall j :: 0 <= j < |b.wroteAt| ==> b.stampedAt[j] <= b.wroteAt[j] <= b.clock)
    && (forall j :: 0 <= j < |b.readAt| ==> b.wroteAt[j] <= b.readAt[j] <= b.clock)
  }

  ghost predicate LedgerInv(b: Books, rate: nat) {
    && 0 < rate < TWO_TO_64
    && b.outstandingReqs <= rate
    && b.numReqsRead + b.outstandingReqs <= b.numReqsSent
    && b.clock < TWO_TO_64
    && SlotsMeanHistory(b)
    && TimesOrdered(b)
  }

  lemma OpenKeepsLedger(times: seq<nat>, clock: nat, rate: nat, size: nat)
    requires 0 < rate < TWO_TO_64 && clock < TWO_TO_64
    ensures LedgerInv(Open(times, clock), rate) && DriftLedger(Open(times, clock), size)
  {}

  lemma ReadKeepsLedger(b: Books, size: nat, rate: nat, moved: nat, t: nat)
    requires size > 0 && LedgerInv(b, rate)
    requires moved / size <= b.outstandingReqs
    requires b.clock <= t < TWO_TO_64
    ensures LedgerInv(AfterRead(b, size, moved, t), rate)
  {
    var b' := AfterRead(b, size, moved, t);
    var whole := moved / size;
    assert b'.outstandingReqs == b.outstandingReqs - whole;
    forall j | 0 <= j < |b.times| && j < b'.numReqsRead
      ensures b'.times[j] == Wrap64(b'.readAt[j] - b'.stampedAt[j])
    {
      if b.numReqsRead <= j { assert b'.readAt[j] == t; }
    }
  }

  lemma StampKeepsLedger(b: Books, rate: nat, t: nat)
    requires LedgerInv(b, rate)
    requires b.clock <= t < TWO_TO_64
    ensures LedgerInv(AfterStamp(b, rate, t), rate)
    ensures b.outstandingReqs < rate ==>
              AfterStamp(b, rate, t).numReqsRead + rate <= AfterStamp(b, rate, t).numReqsSent
  {}

  lemma WriteKeepsLedger(b: Books, size: nat, rate: nat, moved: nat, t: nat)
    requires size > 0 && LedgerInv(b, rate)
    requires b.outstandingReqs + moved / size <= rate
    requires moved / size > 0 ==> b.numReqsRead + rate <= b.numReqsSent
    requires b.clock <= t < TWO_TO_64
    ensures LedgerInv(AfterWrite(b, size, moved, t), rate)
  {
    var b' := AfterWrite(b, size, moved, t);
    assert b'.outstandingReqs == b.outstandingReqs + moved / size;
  }

  /** Slot j holds a finished latency: the read time minus the stamp, not wrapped below zero, and
      at least the interval from the start of the write call to the reading of the clock after
      the read. Stamping early, or again when a write was not possible, only lengthens it. */
  ghost predicate Finished(b: Books, j: nat) {
    && j < |b.times| && j < |b.readAt| && j < |b.stampedAt| && j < |b.wroteAt|
    && b.times[j] == Elapsed(b.stampedAt[j], b.readAt[j])
    && b.times[j] >= Elapsed(b.wroteAt[j], b.readAt[j]) >= 0
  }

  lemma ReportedLatencies(b: Books, rate: nat, count: nat)
    requires LedgerInv(b, rate) && |b.times| == count
    ensures forall j: nat :: j < Reported(b, count) ==> Finished(b, j)
  {}

  // ---------- whole passes of the client's loop ----------

  /** One pass through the loop body, as the environment decides it. */
  datatype Iteration = Iteration(
    didRead: bool, readMoved: nat, readTime: nat,
    stampTime: nat,
    didWrite: bool, writeMoved: nat, writeTime: nat)

  function ReadPart(b: Books, size: nat, it: Iteration): Books
    requires size > 0
  {
    if it.didRead then AfterRead(b, size, it.readMoved, it.readTime) else b
  }

  function StampPart(b: Books, size: nat, rate: nat, it: Iteration): Books
    requires size > 0
  {
    AfterStamp(ReadPart(b, size, it), rate, it.stampTime)
  }

  function Iterate(b: Books, size: nat, rate: nat, it: Iteration): Books
    requires size > 0
  {
    var stamped := StampPart(b, size, rate, it);
    if it.didWrite then AfterWrite(stamped, size, it.writeMoved, it.writeTime) else stamped
  }

  function IterateAll(b: Books, size: nat, rate: nat, its: seq<Iteration>): Books
    requires size > 0
  {
    if its == [] then b
    else Iterate(IterateAll(b, size, rate, its[..|its| - 1]), size, rate, its[|its| - 1])
  }

  /** What the helpers and the loop's guards allow in one pass: a call moves at most what it was
      asked to move, and the client asks for its outstanding bytes and for the rest of its window. */
  ghost predicate Legal(b: Books, size: nat, rate: nat, it: Iteration)
    requires size > 0
  {
    && (it.didRead ==> it.readMoved <= b.outstandingBytes)
    && (it.didWrite ==>
          var o := ReadPart(b, size, it).outstandingBytes;
          o < size * rate && it.writeMoved <= size * rate - o)
  }

  ghost predicate LegalRun(b: Books, size: nat, rate: nat, its: seq<Iteration>)
    requires size > 0
  {
    forall i :: 0 <= i < |its| ==> Legal(IterateAll(b, size, rate, its[..i]), size, rate, its[i])
  }

  /** The clock does not run backwards, and its readings fit the 64-bit type. */
  ghost predicate Timely(b: Books, size: nat, rate: nat, it: Iteration)
    requires size > 0
  {
    && (it.didRead ==> b.clock <= it.readTime < TWO_TO_64)
    && ReadPart(b, size, it).clock <= it.stampTime < TWO_TO_64
    && (it.didWrite ==> StampPart(b, size, rate, it).clock <= it.writeTime < TWO_TO_64)
  }

  ghost predicate TimelyRun(b: Books, size: nat, rate: nat, its: seq<Iteration>)
    requires size > 0
  {
    forall i :: 0 <= i < |its| ==> Timely(IterateAll(b, size, rate, its[..i]), size, rate, its[i])
  }

  ghost predicate Whole(it: Iteration, size: nat)
    requires size > 0
  {
    it.readMoved % size == 0 && it.writeMoved % size == 0
  }

  /** In any run, whole transfers or not: the window is never left and the drift ledger balances. */
  lemma {:induction false} WindowAndDriftInEveryRun(
      size: nat, rate: nat, times: seq<nat>, clock: nat, its: seq<Iteration>)
    requires size > 0 && LegalRun(Open(times, clock), size, rate, its)
    ensures
      var b := IterateAll(Open(times, clock), size, rate, its);
      0 <= b.outstandingBytes <= size * rate && DriftLedger(b, size)
  {
    if |its| > 0 {
      var front := its[..|its| - 1];
      forall i | 0 <= i < |front|
        ensures Legal(IterateAll(Open(times, clock), size, rate, front[..i]), size, rate, front[i])
      {
        assert front[..i] == its[..i];
      }
      WindowAndDriftInEveryRun(size, rate, times, clock, front);
      IterationKeepsWindowAndDrift(IterateAll(Open(times, clock), size, rate, front), size, rate, its[|its| - 1]);
    } else {
      assert 0 <= size * rate;
    }
  }

  lemma IterationKeepsWindowAndDrift(b: Books, size: nat, rate: nat, it: Iteration)
    requires size > 0 && DriftLedger(b, size) && 0 <= b.outstandingBytes <= size * rate
    requires Legal(b, size, rate, it)
    ensures
      var b' := Iterate(b, size, rate, it);
      0 <= b'.outstandingBytes <= size * rate && DriftLedger(b', size)
  {
    if it.didRead { ReadKeepsDrift(b, size, it.readMoved, it.readTime); }
    StampKeepsDrift(ReadPart(b, size, it), size, rate, it.stampTime);
    if it.didWrite { WriteKeepsDrift(StampPart(b, size, rate, it), size, it.writeMoved, it.writeTime); }
  }

  ghost predicate WholeInv(b: Books, size: nat, rate: nat) {
    && LedgerInv(b, rate)
    && b.outstandingBytes == size * b.outstandingReqs
    && b.totalRead == size * b.numReqsRead
  }

  lemma WholeRequests(size: nat, moved: nat, reqs: nat)
    requires size > 0 && moved % size == 0 && moved <= size * reqs
    ensures moved == size * (moved / size) && moved / size <= reqs
  {
    DivMod(moved, size);
    if moved / size > reqs { LargerFactor(size, moved / size, reqs); }
  }

  lemma ReadKeepsWhole(b: Books, size: nat, rate: nat, moved: nat, t: nat)
    requires size > 0 && WholeInv(b, size, rate)
    requires moved % size == 0 && moved <= b.outstandingBytes && b.clock <= t < TWO_TO_64
    ensures WholeInv(AfterRead(b, size, moved, t), size, rate)
  {
    WholeRequests(size, moved, b.outstandingReqs);
    ReadKeepsLedger(b, size, rate, moved, t);
    Distribute(size, b.outstandingReqs, moved / size);
    Distribute(size, b.numReqsRead, moved / size);
  }

  lemma WriteKeepsWhole(b: Books, size: nat, rate: nat, moved: nat, t: nat)
    requires size > 0 && WholeInv(b, size, rate) && b.numReqsRead + rate <= b.numReqsSent
    requires moved % size == 0 && moved <= size * rate - b.outstandingBytes && b.clock <= t < TWO_TO_64
    ensures WholeInv(AfterWrite(b, size, moved, t), size, rate)
  {
    Distribute(size, rate, b.outstandingReqs);
    WholeRequests(size, moved, rate - b.outstandingReqs);
    WriteKeepsLedger(b, size, rate, moved, t);
    Distribute(size, b.outstandingReqs, moved / size);
  }

  lemma NotFull(size: nat, reqs: nat, rate: nat)
    requires size * reqs < size * rate
    ensures reqs < rate
  {
    if reqs > rate { LargerFactor(size, reqs, rate); }
  }

  lemma IterationKeepsWhole(b: Books, size: nat, rate: nat, it: Iteration)
    requires size > 0 && WholeInv(b, size, rate)
    requires Legal(b, size, rate, it) && Timely(b, size, rate, it) && Whole(it, size)
    ensures WholeInv(Iterate(b, size, rate, it), size, rate)
  {
    var b1 := ReadPart(b, size, it);
    if it.didRead { ReadKeepsWhole(b, size, rate, it.readMoved, it.readTime); }
    StampKeepsLedger(b1, rate, it.stampTime);
    if it.didWrite {
      NotFull(size, b1.outstandingReqs, rate);
      WriteKeepsWhole(StampPart(b, size, rate, it), size, rate, it.writeMoved, it.writeTime);
    }
  }

  lemma {:induction false} WholeRunsKeepTheLedger(
      size: nat, rate: nat, times: seq<nat>, clock: nat, its: seq<Iteration>)
    requires size > 0 && 0 < rate < TWO_TO_64 && clock < TWO_TO_64
    requires LegalRun(Open(times, clock), size, rate, its) && TimelyRun(Open(times, clock), size, rate, its)
    requires forall i :: 0 <= i < |its| ==> Whole(its[i], size)
    ensures WholeInv(IterateAll(Open(times, clock), size, rate, its), size, rate)
  {
    if |its| > 0 {
      var front := its[..|its| - 1];
      forall i | 0 <= i < |front|
        ensures
          && Legal(IterateAll(Open(times, clock), size, rate, front[..i]), size, rate, front[i])
          && Timely(IterateAll(Open(times, clock), size, rate, front[..i]), size, rate, front[i])
      {
        assert front[..i] == its[..i];
      }
      WholeRunsKeepTheLedger(size, rate, times, clock, front);
      IterationKeepsWhole(IterateAll(Open(times, clock), size, rate, front), size, rate, its[|its| - 1]);
    }
  }

  lemma {:induction false} IterationsKeepLength(b: Books, size: nat, rate: nat, its: seq<Iteration>)
    requires size > 0
    ensures |IterateAll(b, size, rate, its).times| == |b.times|
  {
    if its != [] { IterationsKeepLength(b, size, rate, its[..|its| - 1]); }
  }

  lemma FloorFits(size: nat, moved: nat, reqs: nat)
    requires size > 0 && moved <= size * reqs
    ensures moved / size <= reqs
  {
    DivMod(moved, size);
    if moved / size > reqs { LargerFactor(size, moved / size, reqs); }
  }

  /** A last pass may write any number of bytes. */
  lemma LastPassKeepsLedger(b: Books, size: nat, rate: nat, it: Iteration)
    requires size > 0 && WholeInv(b, size, rate)
    requires Legal(b, size, rate, it) && Timely(b, size, rate, it) && it.readMoved % size == 0
    ensures
      var b' := Iterate(b, size, rate, it);
      LedgerInv(b', rate) && b'.totalRead == size * b'.numReqsRead
  {
    var b1 := ReadPart(b, size, it);
    if it.didRead { ReadKeepsWhole(b, size, rate, it.readMoved, it.readTime); }
    StampKeepsLedger(b1, rate, it.stampTime);
    if it.didWrite {
      NotFull(size, b1.outstandingReqs, rate);
      Distribute(size, rate, b1.outstandingReqs);
      FloorFits(size, it.writeMoved, rate - b1.outstandingReqs);
      WriteKeepsLedger(StampPart(b, size, rate, it), size, rate, it.writeMoved, it.writeTime);
    }
  }

  /** Every transfer is whole requests, but for a write that is the last thing the loop does. */
  ghost predicate WholeToTheEnd(its: seq<Iteration>, size: nat)
    requires size > 0
  {
    forall i :: 0 <= i < |its| ==> its[i].readMoved % size == 0 && (i < |its| - 1 ==> its[i].writeMoved % size == 0)
  }

  lemma RunKeepsLedger(size: nat, rate: nat, times: seq<nat>, clock: nat, its: seq<Iteration>)
    requires size > 0 && 0 < rate < TWO_TO_64 && clock < TWO_TO_64
    requires LegalRun(Open(times, clock), size, rate, its) && TimelyRun(Open(times, clock), size, rate, its)
    requires WholeToTheEnd(its, size)
    ensures
      var b := IterateAll(Open(times, clock), size, rate, its);
      LedgerInv(b, rate) && b.totalRead == size * b.numReqsRead
  {
    if its != [] {
      var n := |its| - 1;
      var front := its[..n];
      forall i | 0 <= i < n
        ensures Legal(IterateAll(Open(times, clock), size, rate, front[..i]), size, rate, front[i])
        ensures Timely(IterateAll(Open(times, clock), size, rate, front[..i]), size, rate, front[i])
      {
        assert front[..i] == its[..i];
      }
      WholeRunsKeepTheLedger(size, rate, times, clock, front);
      LastPassKeepsLedger(IterateAll(Open(times, clock), size, rate, front), size, rate, its[n]);
    }
  }

  /** End to end, in the regime where every transfer is whole requests: whenever the loop stops,
      normally, because a quit was seen or because its last write was cut short, the reported prefix
      holds finished latencies only; if all bytes were read, the prefix is the whole array. */
  lemma ReportedPrefixIsFinished(size: nat, rate: nat, count: nat, times: seq<nat>, clock: nat, its: seq<Iteration>)
    requires size > 0 && 0 < rate < TWO_TO_64 && clock < TWO_TO_64 && |times| == count
    requires LegalRun(Open(times, clock), size, rate, its) && TimelyRun(Open(times, clock), size, rate, its)
    requires WholeToTheEnd(its, size)
    ensures
      var b := IterateAll(Open(times, clock), size, rate, its);
      && |b.times| == count
      && (b.totalRead >= size * count ==> Reported(b, count) == count)
      && forall j: nat :: j < Reported(b, count) ==> Finished(b, j)
  {
    RunKeepsLedger(size, rate, times, clock, its);
    IterationsKeepLength(Open(times, clock), size, rate, its);
    var b := IterateAll(Open(times, clock), size, rate, its);
    ReportedLatencies(b, rate, count);
    AllRequestsRead(size, b.numReqsRead, count);
  }

  lemma AllRequestsRead(size: nat, n: nat, count: nat)
    requires size > 0
    ensures size * n >= size * count ==> n >= count
  {
    if n < count { LargerFactor(size, count, n); }
  }

  lemma ExtendRun(b: Books, size: nat, rate: nat, its: seq<Iteration>, it: Iteration)
    requires size > 0 && LegalRun(b, size, rate, its)
    requires Legal(IterateAll(b, size, rate, its), size, rate, it)
    ensures LegalRun(b, size, rate, its + [it])
    ensures IterateAll(b, size, rate, its + [it]) == Iterate(IterateAll(b, size, rate, its), size, rate, it)
  {
    var longer := its + [it];
    assert longer[..|its|] == its;
    forall i | 0 <= i < |longer| ensures Legal(IterateAll(b, size, rate, longer[..i]), size, rate, longer[i]) {
      if i < |its| { assert longer[..i] == its[..i]; }
    }
  }

  lemma ExtendTimelyRun(b: Books, size: nat, rate: nat, its: seq<Iteration>, it: Iteration)
    requires size > 0 && TimelyRun(b, size, rate, its)
    requires Timely(IterateAll(b, size, rate, its), size, rate, it)
    ensures TimelyRun(b, size, rate, its + [it])
  {
    var longer := its + [it];
    assert longer[..|its|] == its;
    forall i | 0 <= i < |longer| ensures Timely(IterateAll(b, size, rate, longer[..i]), size, rate, longer[i]) {
      if i < |its| { assert longer[..i] == its[..i]; }
    }
  }
}
