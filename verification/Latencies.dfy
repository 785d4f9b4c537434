/** What the client's books say, told without them: which pass of the loop stamped a request, which one
    wrote it and which one read it, counted from the bytes the calls moved. */
module Latencies {
  import opened Arithmetic
  import opened Books

  /** The bytes and whole requests that the read and write calls of some passes reported. */
  function BytesRead(its: seq<Iteration>): nat {
    if its == [] then 0
    else BytesRead(its[..|its| - 1]) + (if its[|its| - 1].didRead then its[|its| - 1].readMoved else 0)
  }

  function BytesWritten(its: seq<Iteration>): nat {
    if its == [] then 0
    else BytesWritten(its[..|its| - 1]) + (if its[|its| - 1].didWrite then its[|its| - 1].writeMoved else 0)
  }

  function RequestsRead(its: seq<Iteration>, size: nat): nat
    requires size > 0
  {
    if its == [] then 0
    else
      RequestsRead(its[..|its| - 1], size) + (if its[|its| - 1].didRead then its[|its| - 1].readMoved / size else 0)
  }

  function RequestsWritten(its: seq<Iteration>, size: nat): nat
    requires size > 0
  {
    if its == [] then 0
    else
      RequestsWritten(its[..|its| - 1], size)
      + (if its[|its| - 1].didWrite then its[|its| - 1].writeMoved / size else 0)
  }

  /** How many slots have been stamped: each pass stamps the free part of the window, as an unsigned 64-bit
      counter of outstanding requests has it after the pass has read. */
  function Stamps(its: seq<Iteration>, size: nat, rate: nat): nat
    requires size > 0
  {
    if its == [] then 0
    else
      var front := its[..|its| - 1];
      var outstanding := (RequestsWritten(front, size) - RequestsRead(its, size)) % 0x1_0000_0000_0000_0000;
      Stamps(front, size, rate) + (if outstanding < rate then rate - outstanding else 0)
  }

  // ---------- the counters ----------

  lemma Front(its: seq<Iteration>, n: nat)
    requires n < |its|
    ensures its[..n + 1][..n] == its[..n] && its[..n + 1][n] == its[n]
  {}

  /** The books after some passes, but for times: the counters count what the calls reported. */
  ghost predicate Counts(b: Books, its: seq<Iteration>, size: nat, rate: nat)
    requires size > 0
  {
    && b.totalRead == BytesRead(its) && b.totalWritten == BytesWritten(its)
    && b.outstandingBytes == BytesWritten(its) - BytesRead(its)
    && b.numReqsRead == RequestsRead(its, size) && b.wholeWritten == RequestsWritten(its, size)
    && b.outstandingReqs == Wrap64(RequestsWritten(its, size) - RequestsRead(its, size))
    && b.numReqsSent == Stamps(its, size, rate)
    && |b.stampedAt| == b.numReqsSent && |b.wroteAt| == b.wholeWritten && |b.readAt| == b.numReqsRead
  }

  function ReadReqs(it: Iteration, size: nat): nat
    requires size > 0
  {
    if it.didRead then it.readMoved / size else 0
  }

  function WroteReqs(it: Iteration, size: nat): nat
    requires size > 0
  {
    if it.didWrite then it.writeMoved / size else 0
  }

  lemma ReadPartCounts(b: Books, size: nat, it: Iteration, w: nat, r: nat)
    requires size > 0 && b.outstandingReqs == Wrap64(w - r)
    ensures
      var b' := ReadPart(b, size, it);
      && b'.outstandingReqs == Wrap64(w - (r + ReadReqs(it, size)))
      && b'.numReqsRead == b.numReqsRead + ReadReqs(it, size) && b'.wholeWritten == b.wholeWritten
      && |b'.readAt| == |b.readAt| + ReadReqs(it, size)
      && b'.totalRead == b.totalRead + (if it.didRead then it.readMoved else 0) && b'.totalWritten == b.totalWritten
      && b'.outstandingBytes == b.outstandingBytes - (if it.didRead then it.readMoved else 0)
      && b'.numReqsSent == b.numReqsSent && b'.stampedAt == b.stampedAt && b'.wroteAt == b.wroteAt
  {
    if it.didRead { WrapAgain(w - r, -(it.readMoved / size)); }
  }

  lemma WritePartCounts(b: Books, size: nat, rate: nat, it: Iteration, w: nat, r: nat)
    requires size > 0 && StampPart(b, size, rate, it).outstandingReqs == Wrap64(w - r)
    ensures
      var s, b' := StampPart(b, size, rate, it), Iterate(b, size, rate, it);
      && b'.outstandingReqs == Wrap64(w + WroteReqs(it, size) - r)
      && b'.wholeWritten == s.wholeWritten + WroteReqs(it, size) && |b'.wroteAt| == |s.wroteAt| + WroteReqs(it, size)
      && b'.totalWritten == s.totalWritten + (if it.didWrite then it.writeMoved else 0)
      && b'.outstandingBytes == s.outstandingBytes + (if it.didWrite then it.writeMoved else 0)
      && b'.numReqsRead == s.numReqsRead && b'.readAt == s.readAt && b'.totalRead == s.totalRead
      && b'.numReqsSent == s.numReqsSent && b'.stampedAt == s.stampedAt
  {
    if it.didWrite { WrapAgain(w - r, it.writeMoved / size); }
  }

  lemma StampPartCounts(b: Books, rate: nat, t: nat)
    ensures
      var b' := AfterStamp(b, rate, t);
      var n := if b.outstandingReqs < rate then rate - b.outstandingReqs else 0;
      && b'.numReqsSent == b.numReqsSent + n && |b'.stampedAt| == |b.stampedAt| + n
      && b'.outstandingReqs == b.outstandingReqs && b'.outstandingBytes == b.outstandingBytes
      && b'.totalRead == b.totalRead && b'.totalWritten == b.totalWritten
      && b'.numReqsRead == b.numReqsRead && b'.wholeWritten == b.wholeWritten
      && b'.wroteAt == b.wroteAt && b'.readAt == b.readAt
  {}

  lemma OnePassMore(its: seq<Iteration>, size: nat, rate: nat)
    requires size > 0 && its != []
    ensures
      var front, it := its[..|its| - 1], its[|its| - 1];
      var outstanding := Wrap64(RequestsWritten(front, size) - RequestsRead(its, size));
      && RequestsRead(its, size) == RequestsRead(front, size) + ReadReqs(it, size)
      && RequestsWritten(its, size) == RequestsWritten(front, size) + WroteReqs(it, size)
      && BytesRead(its) == BytesRead(front) + (if it.didRead then it.readMoved else 0)
      && BytesWritten(its) == BytesWritten(front) + (if it.didWrite then it.writeMoved else 0)
      && Stamps(its, size, rate) == Stamps(front, size, rate) + (if outstanding < rate then rate - outstanding else 0)
  {}

  lemma PassCounts(b: Books, its: seq<Iteration>, size: nat, rate: nat)
    requires size > 0 && its != [] && Counts(b, its[..|its| - 1], size, rate)
    ensures Counts(Iterate(b, size, rate, its[|its| - 1]), its, size, rate)
  {
    var front, it := its[..|its| - 1], its[|its| - 1];
    var w, r := RequestsWritten(front, size), RequestsRead(front, size);
    OnePassMore(its, size, rate);
    ReadPartCounts(b, size, it, w, r);
    StampPartCounts(ReadPart(b, size, it), rate, it.stampTime);
    WritePartCounts(b, size, rate, it, w, r + ReadReqs(it, size));
  }

  lemma {:induction false} CountersCount(times: seq<nat>, clock: nat, its: seq<Iteration>, size: nat, rate: nat)
    requires size > 0
    ensures Counts(IterateAll(Open(times, clock), size, rate, its), its, size, rate)
  {
    if its != [] {
      CountersCount(times, clock, its[..|its| - 1], size, rate);
      PassCounts(IterateAll(Open(times, clock), size, rate, its[..|its| - 1]), its, size, rate);
    }
  }

  // ---------- the passes of a request ----------

  /** The pass that stamps slot j, the one whose write covers request j, and the one whose read does. */
  function StampPass(its: seq<Iteration>, size: nat, rate: nat, j: nat): (i: nat)
    requires size > 0 && j < Stamps(its, size, rate)
    ensures i < |its| && Stamps(its[..i], size, rate) <= j < Stamps(its[..i + 1], size, rate)
  {
    var n := |its| - 1;
    Front(its, n);
    assert its[..n + 1] == its;
    if Stamps(its[..n], size, rate) <= j then n
    else
      var i := StampPass(its[..n], size, rate, j);
      assert its[..n][..i] == its[..i] && its[..n][..i + 1] == its[..i + 1];
      i
  }

  function WritePass(its: seq<Iteration>, size: nat, j: nat): (i: nat)
    requires size > 0 && j < RequestsWritten(its, size)
    ensures i < |its| && RequestsWritten(its[..i], size) <= j < RequestsWritten(its[..i + 1], size)
  {
    var n := |its| - 1;
    Front(its, n);
    assert its[..n + 1] == its;
    if RequestsWritten(its[..n], size) <= j then n
    else
      var i := WritePass(its[..n], size, j);
      assert its[..n][..i] == its[..i] && its[..n][..i + 1] == its[..i + 1];
      i
  }

  function ReadPass(its: seq<Iteration>, size: nat, j: nat): (i: nat)
    requires size > 0 && j < RequestsRead(its, size)
    ensures i < |its| && RequestsRead(its[..i], size) <= j < RequestsRead(its[..i + 1], size)
  {
    var n := |its| - 1;
    Front(its, n);
    assert its[..n + 1] == its;
    if RequestsRead(its[..n], size) <= j then n
    else
      var i := ReadPass(its[..n], size, j);
      assert its[..n][..i] == its[..i] && its[..n][..i + 1] == its[..i + 1];
      i
  }

  /** The histories are the clock readings of those passes. */
  ghost predicate Dated(b: Books, its: seq<Iteration>, size: nat, rate: nat)
    requires size > 0 && Counts(b, its, size, rate)
  {
    && (forall j: nat :: j < Stamps(its, size, rate) ==> b.stampedAt[j] == its[StampPass(its, size, rate, j)].stampTime)
    && (forall j: nat :: j < RequestsWritten(its, size) ==> b.wroteAt[j] == its[WritePass(its, size, j)].writeTime)
    && (forall j: nat :: j < RequestsRead(its, size) ==> b.readAt[j] == its[ReadPass(its, size, j)].readTime)
  }

  /** A pass only adds to the histories, and adds its own clock readings. */
  lemma PassExtends(b: Books, size: nat, rate: nat, it: Iteration)
    requires size > 0
    ensures
      var b' := Iterate(b, size, rate, it);
      && b.stampedAt <= b'.stampedAt
      && (forall j :: |b.stampedAt| <= j < |b'.stampedAt| ==> b'.stampedAt[j] == it.stampTime)
      && b.wroteAt <= b'.wroteAt && (forall j :: |b.wroteAt| <= j < |b'.wroteAt| ==> b'.wroteAt[j] == it.writeTime)
      && b.readAt <= b'.readAt && (forall j :: |b.readAt| <= j < |b'.readAt| ==> b'.readAt[j] == it.readTime)
  {}

  lemma PassDatesStamps(b: Books, b': Books, its: seq<Iteration>, size: nat, rate: nat)
    requires size > 0 && its != [] && Counts(b, its[..|its| - 1], size, rate) && Counts(b', its, size, rate)
    requires Dated(b, its[..|its| - 1], size, rate) && b.stampedAt <= b'.stampedAt
    requires forall j :: |b.stampedAt| <= j < |b'.stampedAt| ==> b'.stampedAt[j] == its[|its| - 1].stampTime
    ensures forall j: nat :: j < Stamps(its, size, rate) ==>
              b'.stampedAt[j] == its[StampPass(its, size, rate, j)].stampTime
  {}

  lemma PassDatesWrites(b: Books, b': Books, its: seq<Iteration>, size: nat, rate: nat)
    requires size > 0 && its != [] && Counts(b, its[..|its| - 1], size, rate) && Counts(b', its, size, rate)
    requires Dated(b, its[..|its| - 1], size, rate) && b.wroteAt <= b'.wroteAt
    requires forall j :: |b.wroteAt| <= j < |b'.wroteAt| ==> b'.wroteAt[j] == its[|its| - 1].writeTime
    ensures forall j: nat :: j < RequestsWritten(its, size) ==> b'.wroteAt[j] == its[WritePass(its, size, j)].writeTime
  {}

  lemma PassDatesReads(b: Books, b': Books, its: seq<Iteration>, size: nat, rate: nat)
    requires size > 0 && its != [] && Counts(b, its[..|its| - 1], size, rate) && Counts(b', its, size, rate)
    requires Dated(b, its[..|its| - 1], size, rate) && b.readAt <= b'.readAt
    requires forall j :: |b.readAt| <= j < |b'.readAt| ==> b'.readAt[j] == its[|its| - 1].readTime
    ensures forall j: nat :: j < RequestsRead(its, size) ==> b'.readAt[j] == its[ReadPass(its, size, j)].readTime
  {}

  lemma PassDates(b: Books, its: seq<Iteration>, size: nat, rate: nat)
    requires size > 0 && its != [] && Counts(b, its[..|its| - 1], size, rate)
    requires Dated(b, its[..|its| - 1], size, rate)
    requires Counts(Iterate(b, size, rate, its[|its| - 1]), its, size, rate)
    ensures Dated(Iterate(b, size, rate, its[|its| - 1]), its, size, rate)
  {
    var b' := Iterate(b, size, rate, its[|its| - 1]);
    PassExtends(b, size, rate, its[|its| - 1]);
    PassDatesStamps(b, b', its, size, rate);
    PassDatesWrites(b, b', its, size, rate);
    PassDatesReads(b, b', its, size, rate);
  }

  lemma {:induction false} HistoriesAreDated(times: seq<nat>, clock: nat, its: seq<Iteration>, size: nat, rate: nat)
    requires size > 0
    ensures Counts(IterateAll(Open(times, clock), size, rate, its), its, size, rate)
    ensures Dated(IterateAll(Open(times, clock), size, rate, its), its, size, rate)
  {
    CountersCount(times, clock, its, size, rate);
    if its != [] {
      HistoriesAreDated(times, clock, its[..|its| - 1], size, rate);
      PassDates(IterateAll(Open(times, clock), size, rate, its[..|its| - 1]), its, size, rate);
    }
  }

  // ---------- the latencies ----------

  lemma {:induction false} CursorsAdvance(its: seq<Iteration>, size: nat, rate: nat, m: nat, n: nat)
    requires size > 0 && m <= n <= |its|
    ensures Stamps(its[..m], size, rate) <= Stamps(its[..n], size, rate)
    ensures RequestsWritten(its[..m], size) <= RequestsWritten(its[..n], size)
    decreases n
  {
    if m < n {
      CursorsAdvance(its, size, rate, m, n - 1);
      Front(its, n - 1);
      OnePassMore(its[..n], size, rate);
    }
  }

  /** A run of the loop that keeps to its window, under a clock that does not run backwards, in which every
      transfer is whole requests, but for a write that is the last thing it does. */
  ghost predicate WholeRun(size: nat, rate: nat, times: seq<nat>, clock: nat, its: seq<Iteration>) {
    && size > 0 && 0 < rate < TWO_TO_64 && clock < TWO_TO_64
    && LegalRun(Open(times, clock), size, rate, its) && TimelyRun(Open(times, clock), size, rate, its)
    && WholeToTheEnd(its, size)
  }

  lemma PrefixIsWhole(size: nat, rate: nat, times: seq<nat>, clock: nat, its: seq<Iteration>, n: nat)
    requires WholeRun(size, rate, times, clock, its) && n <= |its|
    ensures WholeRun(size, rate, times, clock, its[..n])
  {
    forall i | 0 <= i < n
      ensures Legal(IterateAll(Open(times, clock), size, rate, its[..n][..i]), size, rate, its[..n][i])
      ensures Timely(IterateAll(Open(times, clock), size, rate, its[..n][..i]), size, rate, its[..n][i])
    {
      assert its[..n][..i] == its[..i];
    }
  }

  /** At every pass no more requests are read than written and no more written than stamped. */
  lemma CursorsInOrder(size: nat, rate: nat, times: seq<nat>, clock: nat, its: seq<Iteration>, n: nat)
    requires WholeRun(size, rate, times, clock, its) && n <= |its|
    ensures RequestsRead(its[..n], size) <= RequestsWritten(its[..n], size) <= Stamps(its[..n], size, rate)
    ensures n < |its| ==> RequestsRead(its[..n + 1], size) <= RequestsWritten(its[..n], size)
  {
    PrefixIsWhole(size, rate, times, clock, its, n);
    RunKeepsLedger(size, rate, times, clock, its[..n]);
    CountersCount(times, clock, its[..n], size, rate);
    if n < |its| {
      WholeRunsKeepTheLedger(size, rate, times, clock, its[..n]);
      var b := IterateAll(Open(times, clock), size, rate, its[..n]);
      assert Legal(b, size, rate, its[n]);
      Front(its, n);
      OnePassMore(its[..n + 1], size, rate);
      if its[n].didRead { WholeRequests(size, its[n].readMoved, b.outstandingReqs); }
    }
  }

  /** Slot j holds the time between two clock readings of the loop: the one with which the slot was stamped,
      in pass i, and the one after the read that brought its request back, in pass k. Its write began in
      between, in pass m, so the latency is at least the time from that write to that read. */
  ghost predicate Measured(times: seq<nat>, its: seq<Iteration>, size: nat, rate: nat, j: nat)
    requires size > 0
  {
    && j < |times| && j < RequestsRead(its, size) && j < RequestsWritten(its, size) && j < Stamps(its, size, rate)
    && (var i, m, k := StampPass(its, size, rate, j), WritePass(its, size, j), ReadPass(its, size, j);
        && i <= m < k && its[m].didWrite && its[k].didRead
        && times[j] == its[k].readTime - its[i].stampTime
        && times[j] >= its[k].readTime - its[m].writeTime >= 0)
  }

  lemma PassesInOrder(size: nat, rate: nat, times: seq<nat>, clock: nat, its: seq<Iteration>, j: nat)
    requires WholeRun(size, rate, times, clock, its) && j < RequestsRead(its, size)
    ensures j < RequestsWritten(its, size) && j < Stamps(its, size, rate)
    ensures StampPass(its, size, rate, j) <= WritePass(its, size, j) < ReadPass(its, size, j)
    ensures its[WritePass(its, size, j)].didWrite && its[ReadPass(its, size, j)].didRead
  {
    assert its[..|its|] == its;
    CursorsInOrder(size, rate, times, clock, its, |its|);
    var i, m, k := StampPass(its, size, rate, j), WritePass(its, size, j), ReadPass(its, size, j);
    Front(its, m);
    Front(its, k);
    OnePassMore(its[..m + 1], size, rate);
    OnePassMore(its[..k + 1], size, rate);
    CursorsInOrder(size, rate, times, clock, its, m + 1);
    CursorsInOrder(size, rate, times, clock, its, k);
    if m < i { CursorsAdvance(its, size, rate, m + 1, i); }
    if k <= m { CursorsAdvance(its, size, rate, k, m); }
  }

  /** The client reports the requests it has read, but no more than there are slots. */
  function ReadAndCounted(its: seq<Iteration>, size: nat, count: nat): nat
    requires size > 0
  {
    if RequestsRead(its, size) > count then count else RequestsRead(its, size)
  }

  /** End to end: whenever a whole run stops, every slot below the reported count is a latency measured between
      two clock readings of its own request; and if all bytes were read, that is every slot. */
  lemma LatenciesAreMeasured(size: nat, rate: nat, count: nat, times: seq<nat>, clock: nat, its: seq<Iteration>)
    requires WholeRun(size, rate, times, clock, its) && |times| == count
    ensures
      var b := IterateAll(Open(times, clock), size, rate, its);
      && |b.times| == count && Reported(b, count) == ReadAndCounted(its, size, count)
      && (forall j: nat :: j < ReadAndCounted(its, size, count) ==> Measured(b.times, its, size, rate, j))
      && (BytesRead(its) >= size * count ==> ReadAndCounted(its, size, count) == count)
  {
    var b := IterateAll(Open(times, clock), size, rate, its);
    ReportedPrefixIsFinished(size, rate, count, times, clock, its);
    HistoriesAreDated(times, clock, its, size, rate);
    forall j: nat | j < ReadAndCounted(its, size, count) ensures Measured(b.times, its, size, rate, j) {
      PassesInOrder(size, rate, times, clock, its, j);
      assert Finished(b, j);
    }
  }
}
