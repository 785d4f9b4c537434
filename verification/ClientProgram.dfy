/** The client's `communicate` loop as the imperative program it is: counters and a latency array
    updated in place, driven by poll results, system-call results, clock readings and observations
    of the quit flag. It computes the books, whose meaning is proved in module Books. */
module ClientProgram {
  import opened Books
  import opened Bytes
  import opened Latencies
  import opened Transfer

  /** One pass as the environment decides it. The quit flag is volatile and read at four points. */
  datatype Poll = Poll(
    quitAtHead: bool, failed: bool, quitAfterPoll: bool, canRead: bool, canWrite: bool,
    quitAtRead: bool, quitAtWrite: bool,
    readTime: nat, stampTime: nat, writeTime: nat)

  method UpdateWriteTimes(time: nat, times: array<nat>, totalTimes: nat, startIndex: nat, numToUpdate: nat)
    requires totalTimes == times.Length
    modifies times
    ensures times[..] == Stamped(old(times[..]), startIndex, numToUpdate, time)
  {
    var end := startIndex + numToUpdate;
    if startIndex > totalTimes { return; }
    if startIndex + numToUpdate > totalTimes { end := totalTimes; }
    for i := startIndex to end
      invariant end <= times.Length
      invariant forall j :: 0 <= j < times.Length ==>
                  times[j] == if startIndex <= j < i then time else old(times[j])
    {
      times[i] := time;
    }
  }

  method UpdateReadWriteTimes(time: nat, times: array<nat>, totalTimes: nat, startIndex: nat, numToUpdate: nat)
    requires totalTimes == times.Length
    modifies times
    ensures times[..] == Differenced(old(times[..]), startIndex, numToUpdate, time)
  {
    var end := startIndex + numToUpdate;
    if startIndex > totalTimes { return; }
    if startIndex + numToUpdate > totalTimes { end := totalTimes; }
    for i := startIndex to end
      invariant end <= times.Length
      invariant forall j :: 0 <= j < times.Length ==>
                  times[j] == if startIndex <= j < i then Wrap64(time - old(times[j])) else old(times[j])
    {
      times[i] := Wrap64(time - times[i]);
    }
  }

  /** The counters of the loop. */
  class Client {
    const size: nat
    const rate: nat
    const count: nat
    var outstandingBytes: int
    var totalBytesRead: int
    var totalBytesWritten: int
    var outstandingReqs: nat
    var numReqsRead: nat
    var numReqsSent: nat
    const times: array<nat>
    const readBuffer: array<byte>
    const writeBuffer: array<byte>
    ghost var books: Books
    ghost var trace: seq<Iteration>
    ghost const initial: Books
    /** Everything read and everything written so far. */
    ghost var received: seq<byte>
    ghost var sent: seq<byte>

    constructor (size: nat, rate: nat, count: nat, writeBuffer: array<byte>)
      requires size > 0 && rate > 0 && writeBuffer.Length == size * rate
      ensures Valid() && this.size == size && this.rate == rate && this.count == count
      ensures this.writeBuffer == writeBuffer && fresh(times) && fresh(readBuffer)
      ensures trace == [] && received == sent == [] && initial == Open(times[..], 0)
    {
      this.size, this.rate, this.count := size, rate, count;
      outstandingBytes, totalBytesRead, totalBytesWritten := 0, 0, 0;
      outstandingReqs, numReqsRead, numReqsSent := 0, 0, 0;
      var slots := new nat[count];
      times := slots;
      readBuffer := new byte[size * rate];
      this.writeBuffer := writeBuffer;
      initial := Open(slots[..], 0);
      books := Open(slots[..], 0);
      trace, received, sent := [], [], [];
    }

    /** The counters are the books of the passes made so far, each of which kept to the window. */
    ghost predicate Valid()
      reads this, times
    {
      && Shape() && Agrees(books) && |received| == totalBytesRead && |sent| == totalBytesWritten
      && initial == Open(initial.times, 0)
      && LegalRun(initial, size, rate, trace)
      && books == IterateAll(initial, size, rate, trace)
    }

    ghost predicate Shape()
      reads this
    {
      && size > 0 && rate > 0 && times.Length == count
      && readBuffer.Length == writeBuffer.Length == size * rate
      && readBuffer != writeBuffer
    }

    ghost predicate Agrees(b: Books)
      reads this, times
    {
      && outstandingBytes == b.outstandingBytes
      && totalBytesRead == b.totalRead
      && totalBytesWritten == b.totalWritten
      && outstandingReqs == b.outstandingReqs
      && numReqsRead == b.numReqsRead
      && numReqsSent == b.numReqsSent
      && times[..] == b.times
    }

    /** The part of a pass that reads; lines 132 to 144 of the FIFO client. */
    method ReadPhase(time: nat, inbound: Stream, ghost b: Books) returns (ghost moved: nat)
      requires Shape() && Agrees(b) && 0 <= b.outstandingBytes <= size * rate && b.outstandingReqs < TWO_TO_64
      modifies `outstandingBytes, `totalBytesRead, `outstandingReqs, `numReqsRead, times, readBuffer, inbound
      ensures moved <= b.outstandingBytes && Agrees(AfterRead(b, size, moved, time))
      ensures inbound.content == Drop(old(inbound.content), moved) && moved <= |old(inbound.content)|
      ensures readBuffer[..moved] == old(inbound.content)[..moved]
      ensures moved < b.outstandingBytes ==> CutShort(old(inbound.results), inbound.results, |inbound.content|)
    {
      var toUpdateRead := 0;
      var readInfo, calls := ReadFromStream(readBuffer, inbound, size, outstandingBytes);
      assert readInfo.totalBytes < b.outstandingBytes ==>
               CallFailed(old(inbound.results), calls - 1, |inbound.content|);
      outstandingBytes := outstandingBytes - readInfo.totalBytes;
      totalBytesRead := totalBytesRead + readInfo.totalBytes;
      if readInfo.wholeReqs > 0 {
        outstandingReqs := Wrap64(outstandingReqs - readInfo.wholeReqs);
        toUpdateRead := toUpdateRead + readInfo.wholeReqs;
      }
      UpdateReadWriteTimes(time, times, count, numReqsRead, toUpdateRead);
      numReqsRead := numReqsRead + toUpdateRead;
      moved := readInfo.totalBytes;
    }

    /** The part of a pass that stamps; lines 146 to 149 of the FIFO client. */
    method StampPhase(time: nat, ghost b: Books)
      requires Shape() && Agrees(b)
      modifies `numReqsSent, times
      ensures Agrees(AfterStamp(b, rate, time))
    {
      if outstandingReqs < rate {
        UpdateWriteTimes(time, times, count, numReqsSent, rate - outstandingReqs);
        numReqsSent := numReqsSent + (rate - outstandingReqs);
      }
    }

    /** The part of a pass that writes; lines 152 to 161 of the FIFO client. */
    method WritePhase(ghost time: nat, outbound: Stream, ghost b: Books) returns (ghost moved: nat)
      requires Shape() && Agrees(b) && 0 <= b.outstandingBytes < size * rate && b.outstandingReqs < TWO_TO_64
      requires outbound.Valid()
      modifies `outstandingBytes, `totalBytesWritten, `outstandingReqs, outbound
      ensures moved <= size * rate - b.outstandingBytes && Agrees(AfterWrite(b, size, moved, time))
      ensures outbound.Valid() && outbound.content == old(outbound.content) + writeBuffer[..moved]
      ensures moved < size * rate - b.outstandingBytes ==>
                CutShort(old(outbound.results), outbound.results, outbound.Room())
    {
      var writeInfo, calls := WriteToStream(writeBuffer, outbound, size, size * rate - outstandingBytes);
      assert writeInfo.totalBytes < size * rate - b.outstandingBytes ==>
               CallFailed(old(outbound.results), calls - 1, outbound.Room());
      outstandingBytes := outstandingBytes + writeInfo.totalBytes;
      totalBytesWritten := totalBytesWritten + writeInfo.totalBytes;
      if writeInfo.wholeReqs > 0 { outstandingReqs := Wrap64(outstandingReqs + writeInfo.wholeReqs); }
      moved := writeInfo.totalBytes;
    }

    /** The statements of one pass after the poll; the result says what the pass did. */
    method Act(poll: Poll, inbound: Stream, outbound: Stream) returns (ghost it: Iteration)
      requires Shape() && Agrees(books) && 0 <= books.outstandingBytes <= size * rate
      requires books.outstandingReqs < TWO_TO_64
      requires outbound.Valid() && inbound != outbound
      modifies `outstandingBytes, `totalBytesRead, `totalBytesWritten, `outstandingReqs, `numReqsRead, `numReqsSent
      modifies times, readBuffer, inbound, outbound
      ensures Agrees(Iterate(books, size, rate, it)) && Legal(books, size, rate, it) && Follows(poll, it)
      ensures it.didWrite == (poll.canWrite && !poll.quitAtWrite && BytesBeforeWrite(books, it) < size * rate)
      ensures totalBytesRead == old(totalBytesRead) + ReadBytes(it)
      ensures totalBytesWritten == old(totalBytesWritten) + WrittenBytes(it)
      ensures ReadBytes(it) <= |old(inbound.content)| && inbound.content == old(inbound.content)[ReadBytes(it)..]
      ensures outbound.Valid() && WrittenBytes(it) <= writeBuffer.Length
      ensures outbound.content == old(outbound.content) + writeBuffer[..WrittenBytes(it)]
      ensures it.didRead && it.readMoved < books.outstandingBytes ==>
                CutShort(old(inbound.results), inbound.results, |inbound.content|)
      ensures it.didWrite && outstandingBytes < size * rate ==>
                CutShort(old(outbound.results), outbound.results, outbound.Room())
    {
      ghost var readMoved, writeMoved := 0, 0;
      ghost var b := books;
      if poll.canRead && !poll.quitAtRead {
        readMoved := ReadPhase(poll.readTime, inbound, b);
        b := AfterRead(b, size, readMoved, poll.readTime);
      }
      StampPhase(poll.stampTime, b);
      b := AfterStamp(b, rate, poll.stampTime);
      ghost var writing := poll.canWrite && outstandingBytes < size * rate && !poll.quitAtWrite;
      if poll.canWrite && outstandingBytes < size * rate && !poll.quitAtWrite {
        writeMoved := WritePhase(poll.writeTime, outbound, b);
        b := AfterWrite(b, size, writeMoved, poll.writeTime);
      }
      it := Iteration(poll.canRead && !poll.quitAtRead, readMoved, poll.readTime,
                      poll.stampTime, writing, writeMoved, poll.writeTime);
      assert b == Iterate(books, size, rate, it);
    }

    /** One pass through the loop body after the poll. */
    method Pass(poll: Poll, inbound: Stream, outbound: Stream) returns (ghost it: Iteration)
      requires Valid() && outbound.Valid() && inbound != outbound
      modifies this, times, readBuffer, inbound, outbound
      ensures Valid() && outbound.Valid()
      ensures trace == old(trace) + [it] && Follows(poll, it)
      ensures it.didWrite == (poll.canWrite && !poll.quitAtWrite && old(outstandingBytes) - ReadBytes(it) < size * rate)
      ensures it.didRead && it.readMoved < old(outstandingBytes) ==>
                CutShort(old(inbound.results), inbound.results, |inbound.content|)
      ensures it.didWrite && outstandingBytes < size * rate ==>
                CutShort(old(outbound.results), outbound.results, outbound.Room())
      ensures totalBytesRead == old(totalBytesRead) + ReadBytes(it)
      ensures totalBytesWritten == old(totalBytesWritten) + WrittenBytes(it)
      ensures received + inbound.content == old(received) + old(inbound.content)
      ensures WrittenBytes(it) <= writeBuffer.Length && sent == old(sent) + writeBuffer[..WrittenBytes(it)]
      ensures outbound.content == old(outbound.content) + writeBuffer[..WrittenBytes(it)]
    {
      ghost var start := inbound.content;
      WindowAndDriftInEveryRun(size, rate, initial.times, 0, trace);
      it := Act(poll, inbound, outbound);
      ExtendRun(initial, size, rate, trace, it);
      trace := trace + [it];
      received := received + start[..ReadBytes(it)];
      TakenFrom(old(received), start, ReadBytes(it));
      sent := sent + writeBuffer[..WrittenBytes(it)];
      books := Iterate(books, size, rate, it);
    }

    /** What the server does meanwhile and one pass of the loop. */
    method Round(poll: Poll, arrived: seq<byte>, departing: nat, inbound: Stream, outbound: Stream)
        returns (ghost it: Iteration, ghost taken: seq<byte>)
      requires Valid() && outbound.Valid() && inbound != outbound
      modifies this, times, readBuffer, inbound, outbound
      ensures Valid() && outbound.Valid()
      ensures trace == old(trace) + [it] && Follows(poll, it)
      ensures it.didWrite == (poll.canWrite && !poll.quitAtWrite && old(outstandingBytes) - ReadBytes(it) < size * rate)
      ensures it.didRead && it.readMoved < old(outstandingBytes) ==>
                CutShort(old(inbound.results), inbound.results, |inbound.content|)
      ensures it.didWrite && outstandingBytes < size * rate ==>
                CutShort(old(outbound.results), outbound.results, outbound.Room())
      ensures received + inbound.content == old(received) + (old(inbound.content) + arrived)
      ensures WrittenBytes(it) <= writeBuffer.Length && sent == old(sent) + writeBuffer[..WrittenBytes(it)]
      ensures taken + outbound.content == old(outbound.content) + writeBuffer[..WrittenBytes(it)]
    {
      taken := Meanwhile(inbound, outbound, arrived, departing);
      ghost var before := outbound.content;
      it := Pass(poll, inbound, outbound);
      ghost var data := writeBuffer[..WrittenBytes(it)];
      assert taken + (before + data) == (taken + before) + data;
    }

    /** The books of the loop after some passes: each was made for a reason and did what its poll allowed, it wrote
        whenever it could, and all bytes of both channels are accounted for. `start` and `origin` are what these
        held at first. */
    ghost predicate Accounted(polls: seq<Poll>, arrivals: seq<seq<byte>>, start: seq<byte>, content: seq<byte>,
                              origin: seq<byte>, sending: seq<byte>, gone: seq<byte>)
      reads this
    {
      && |trace| <= |polls| == |arrivals| && FollowsAll(polls[..|trace|], trace)
      && AllWentOn(polls, trace, size * count) && AllWrote(polls, trace, size * rate)
      && received + content == start + Joined(arrivals[..|trace|])
      && gone + sending == origin + sent
    }

    lemma TotalsOfTrace()
      requires Valid()
      ensures totalBytesRead == BytesRead(trace) && outstandingBytes == BytesWritten(trace) - BytesRead(trace)
    {
      CountersCount(initial.times, 0, trace, size, rate);
    }

    /** One round of the loop. */
    method NextRound(polls: seq<Poll>, arrivals: seq<seq<byte>>, departures: seq<nat>, used: nat,
                     inbound: Stream, outbound: Stream,
                     ghost start: seq<byte>, ghost origin: seq<byte>, ghost gone: seq<byte>)
        returns (ghost gone': seq<byte>)
      requires |arrivals| == |polls| == |departures| && |trace| == used < |polls|
      requires Valid() && outbound.Valid() && inbound != outbound && totalBytesRead < size * count
      requires !polls[used].quitAtHead && !polls[used].failed && !polls[used].quitAfterPoll
      requires Accounted(polls, arrivals, start, inbound.content, origin, outbound.content, gone)
      modifies this, times, readBuffer, inbound, outbound
      ensures Valid() && outbound.Valid() && |trace| == |old(trace)| + 1
      ensures Accounted(polls, arrivals, start, inbound.content, origin, outbound.content, gone')
    {
      TotalsOfTrace();
      ghost var before, receivedBefore, inBefore := trace, received, inbound.content;
      ghost var sentBefore, outBefore := sent, outbound.content;
      ghost var it, taken := Round(polls[used], arrivals[used], departures[used], inbound, outbound);
      JoinedMore(arrivals, used);
      Regrouped(receivedBefore, inBefore, arrivals[used], start, Joined(arrivals[..used]));
      Departed(gone, taken, outBefore, outbound.content, origin, sentBefore, writeBuffer[..WrittenBytes(it)]);
      assert trace[..used] == before;
      FollowsMore(polls, trace, used);
      WentOnMore(polls, before, it, size * count);
      WroteMore(polls, before, it, size * rate);
      gone' := gone + taken;
    }

    /** The loop ends when all bytes are read, when a poll fails, or when the quit flag is seen; `polls`
        is as much of the environment's behaviour as is looked at. Before each pass the server may have
        sent `arrivals` and taken out some of the bytes on their way to it, at most `departures`; `gone`
        is all it has taken. The result is the number of requests read, or of slots if that is smaller:
        when the clock does not run backwards and every transfer, but for a last write, was whole
        requests, each slot below it is the time from the pass that stamped its request to the one that
        read it, and these are all `count` slots if all bytes are read. */
    method Communicate(polls: seq<Poll>, arrivals: seq<seq<byte>>, departures: seq<nat>,
                       inbound: Stream, outbound: Stream)
        returns (reported: nat, used: nat, ghost gone: seq<byte>)
      requires |arrivals| == |polls| == |departures|
      requires Valid() && outbound.Valid() && inbound != outbound && trace == [] && received == sent == []
      modifies this, times, readBuffer, inbound, outbound
      ensures Valid() && outbound.Valid() && |trace| == used
      ensures Accounted(polls, arrivals, old(inbound.content), inbound.content, old(outbound.content),
                        outbound.content, gone)
      ensures used < |polls| ==>
                || totalBytesRead >= size * count
                || polls[used].quitAtHead || polls[used].failed || polls[used].quitAfterPoll
      ensures totalBytesRead == BytesRead(trace) && totalBytesWritten == BytesWritten(trace)
      ensures reported == ReadAndCounted(trace, size, count)
      ensures WholeRun(size, rate, initial.times, 0, trace) ==>
                && (forall j: nat :: j < reported ==> MeasuredBy(polls, times[..], trace, size, rate, j))
                && (totalBytesRead >= size * count ==> reported == count)
    {
      used, gone := 0, [];
      while used < |polls| && totalBytesRead < size * count && !polls[used].quitAtHead
        invariant Valid() && outbound.Valid() && |trace| == used
        invariant Accounted(polls, arrivals, old(inbound.content), inbound.content, old(outbound.content),
                            outbound.content, gone)
      {
        if polls[used].failed { break; }
        if polls[used].quitAfterPoll { break; }
        gone := NextRound(polls, arrivals, departures, used, inbound, outbound,
                          old(inbound.content), old(outbound.content), gone);
        used := used + 1;
      }
      reported := if numReqsRead > count then count else numReqsRead;
      ReportIsMeasured(polls, size, rate, count, initial.times, trace);
    }
  }

  function ReadBytes(it: Iteration): nat {
    if it.didRead then it.readMoved else 0
  }

  function WrittenBytes(it: Iteration): nat {
    if it.didWrite then it.writeMoved else 0
  }

  /** The outstanding bytes when the loop decides whether to write. */
  function BytesBeforeWrite(b: Books, it: Iteration): int {
    b.outstandingBytes - ReadBytes(it)
  }

  /** The latency is the difference of the clock readings of two polled passes. */
  ghost predicate MeasuredBy(polls: seq<Poll>, times: seq<nat>, its: seq<Iteration>, size: nat, rate: nat, j: nat)
    requires size > 0 && |its| <= |polls|
  {
    && Measured(times, its, size, rate, j)
    && times[j] == polls[ReadPass(its, size, j)].readTime - polls[StampPass(its, size, rate, j)].stampTime
  }

  lemma ReportIsMeasured(polls: seq<Poll>, size: nat, rate: nat, count: nat, times: seq<nat>, its: seq<Iteration>)
    requires size > 0 && rate > 0 && |times| == count && |its| <= |polls| && FollowsAll(polls[..|its|], its)
    ensures
      var b := IterateAll(Open(times, 0), size, rate, its);
      && b.totalRead == BytesRead(its) && b.totalWritten == BytesWritten(its)
      && Reported(b, count) == ReadAndCounted(its, size, count)
      && (WholeRun(size, rate, times, 0, its) ==>
            && (forall j: nat :: j < Reported(b, count) ==> MeasuredBy(polls, b.times, its, size, rate, j))
            && (b.totalRead >= size * count ==> Reported(b, count) == count))
  {
    var b := IterateAll(Open(times, 0), size, rate, its);
    CountersCount(times, 0, its, size, rate);
    if WholeRun(size, rate, times, 0, its) {
      LatenciesAreMeasured(size, rate, count, times, 0, its);
      forall j: nat | j < Reported(b, count) ensures MeasuredBy(polls, b.times, its, size, rate, j) {
        assert Measured(b.times, its, size, rate, j);
        assert Follows(polls[..|its|][ReadPass(its, size, j)], its[ReadPass(its, size, j)]);
        assert Follows(polls[..|its|][StampPass(its, size, rate, j)], its[StampPass(its, size, rate, j)]);
      }
    }
  }

  /** A recorded pass reads and writes only where the poll and the quit flag allowed it. */
  ghost predicate Follows(poll: Poll, it: Iteration) {
    && it.didRead == (poll.canRead && !poll.quitAtRead)
    && (it.didWrite ==> poll.canWrite && !poll.quitAtWrite)
    && it.readTime == poll.readTime && it.stampTime == poll.stampTime && it.writeTime == poll.writeTime
  }

  ghost predicate FollowsAll(polls: seq<Poll>, its: seq<Iteration>) {
    |its| == |polls| && forall i :: 0 <= i < |its| ==> Follows(polls[i], its[i])
  }

  /** The loop made its i-th pass because no poll had failed, no quit had been seen and bytes were missing. */
  ghost predicate WentOn(polls: seq<Poll>, its: seq<Iteration>, max: nat, i: nat)
    requires i < |its| <= |polls|
  {
    !polls[i].quitAtHead && !polls[i].failed && !polls[i].quitAfterPoll && BytesRead(its[..i]) < max
  }

  ghost predicate AllWentOn(polls: seq<Poll>, its: seq<Iteration>, max: nat)
    requires |its| <= |polls|
  {
    forall i: nat :: i < |its| ==> WentOn(polls, its, max, i)
  }

  lemma WentOnMore(polls: seq<Poll>, its: seq<Iteration>, it: Iteration, max: nat)
    requires |its| < |polls| && AllWentOn(polls, its, max) && BytesRead(its) < max
    requires !polls[|its|].quitAtHead && !polls[|its|].failed && !polls[|its|].quitAfterPoll
    ensures AllWentOn(polls, its + [it], max)
  {
    forall i: nat | i <= |its| ensures WentOn(polls, its + [it], max, i) {
      if i < |its| {
        assert WentOn(polls, its, max, i) && (its + [it])[..i] == its[..i];
      } else {
        assert (its + [it])[..i] == its;
      }
    }
  }

  /** The loop wrote in its i-th pass if and only if it could: the poll and the quit flag allowed it and, after
      the pass had read, the window was not full. */
  ghost predicate Wrote(polls: seq<Poll>, its: seq<Iteration>, window: nat, i: nat)
    requires i < |its| <= |polls|
  {
    its[i].didWrite == (polls[i].canWrite && !polls[i].quitAtWrite
                        && BytesWritten(its[..i]) - BytesRead(its[..i]) - ReadBytes(its[i]) < window)
  }

  ghost predicate AllWrote(polls: seq<Poll>, its: seq<Iteration>, window: nat)
    requires |its| <= |polls|
  {
    forall i: nat :: i < |its| ==> Wrote(polls, its, window, i)
  }

  lemma WroteMore(polls: seq<Poll>, its: seq<Iteration>, it: Iteration, window: nat)
    requires |its| < |polls| && AllWrote(polls, its, window)
    requires it.didWrite == (polls[|its|].canWrite && !polls[|its|].quitAtWrite
                             && BytesWritten(its) - BytesRead(its) - ReadBytes(it) < window)
    ensures AllWrote(polls, its + [it], window)
  {
    forall i: nat | i <= |its| ensures Wrote(polls, its + [it], window, i) {
      if i < |its| {
        assert Wrote(polls, its, window, i) && (its + [it])[..i] == its[..i];
      } else {
        assert (its + [it])[..i] == its;
      }
    }
  }

  lemma FollowsMore(polls: seq<Poll>, its: seq<Iteration>, k: nat)
    requires k < |polls| && |its| == k + 1 && FollowsAll(polls[..k], its[..k]) && Follows(polls[k], its[k])
    ensures FollowsAll(polls[..k + 1], its)
  {
    forall i | 0 <= i < |its| ensures Follows(polls[..k + 1][i], its[i]) {
      if i < k { assert polls[..k][i] == polls[i] && its[..k][i] == its[i]; }
    }
  }

  lemma TakenFrom(received: seq<byte>, start: seq<byte>, n: nat)
    requires n <= |start|
    ensures (received + start[..n]) + start[n..] == received + start
  {}
}
