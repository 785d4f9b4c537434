/** The server's `communicate` loop as the imperative program it is. The server trusts the client's
    window: an access outside its buffer is reported as `overrun`, where the C code would go on. */
module ServerProgram {
  import opened Bytes
  import opened Transfer

  /** One pass as the environment decides it. */
  datatype Poll = Poll(
    quitAtHead: bool, failed: bool, quitAfterPoll: bool, canRead: bool, canWrite: bool,
    quitAtRead: bool, quitAtWrite: bool)

  class Server {
    const size: nat
    const rate: nat
    const buffer: array<byte>
    var outstandingBytes: int
    var totalBytesRead: int
    var totalBytesWritten: int
    var armed: bool
    var overrun: bool
    /** Everything taken from the client and everything sent back to it. */
    ghost var consumed: seq<byte>
    ghost var sent: seq<byte>
    /** No read was made on top of unsent bytes and no write was cut short. */
    ghost var lockstep: bool
    /** What each pass took and sent. */
    ghost var log: seq<Entry>

    constructor (size: nat, rate: nat)
      requires size > 0 && rate > 0
      ensures Valid() && this.size == size && this.rate == rate && fresh(buffer)
      ensures consumed == [] && sent == [] && log == [] && Logged() && !overrun
    {
      this.size, this.rate := size, rate;
      buffer := new byte[size * rate];
      outstandingBytes, totalBytesRead, totalBytesWritten := 0, 0, 0;
      armed, overrun := false, false;
      consumed, sent, lockstep, log := [], [], true, [];
    }

    ghost predicate Valid()
      reads this, buffer
    {
      && size > 0 && rate > 0 && buffer.Length == size * rate
      && totalBytesRead == |consumed| && totalBytesWritten == |sent|
      && outstandingBytes == totalBytesRead - totalBytesWritten >= 0
      && armed == (consumed != [])
      && (lockstep && !overrun ==> outstandingBytes <= buffer.Length && consumed == sent + buffer[..outstandingBytes])
    }

    ghost predicate Logged()
      reads this
    {
      consumed == Taken(log) && sent == Sent(log) && Tells(log, size * rate, overrun, lockstep)
    }

    /** The read call itself. */
    method Fill(inbound: Stream, toRead: nat) returns (moved: nat, ghost took: seq<byte>)
      requires size > 0 && toRead <= buffer.Length
      modifies buffer, inbound
      ensures |took| == moved <= toRead && took + inbound.content == old(inbound.content)
      ensures buffer[..] == took + old(buffer[..])[moved..]
      ensures moved < toRead ==> CutShort(old(inbound.results), inbound.results, |inbound.content|)
    {
      ghost var start := inbound.content;
      var readInfo, calls := ReadFromStream(buffer, inbound, size, toRead);
      moved, took := readInfo.totalBytes, start[..readInfo.totalBytes];
      assert moved < toRead ==> CallFailed(old(inbound.results), calls - 1, |inbound.content|);
      assert start == start[..moved] + start[moved..];
    }

    method ReadPhase(inbound: Stream) returns (toWrite: nat, ghost took: seq<byte>)
      requires Valid() && !overrun
      modifies `outstandingBytes, `totalBytesRead, `armed, `overrun, `consumed, `lockstep, buffer, inbound
      ensures Valid() && toWrite == outstandingBytes
      ensures sent == old(sent) && consumed == old(consumed) + took
      ensures took + inbound.content == old(inbound.content)
      ensures |took| <= buffer.Length && buffer[..] == took + old(buffer[..])[|took|..]
      ensures overrun ==> outstandingBytes > buffer.Length
      ensures !overrun && |took| < buffer.Length ==>
                CutShort(old(inbound.results), inbound.results, |inbound.content|)
      ensures lockstep <==> old(lockstep) && (old(outstandingBytes) == 0 || took == [])
    {
      toWrite, took := outstandingBytes, [];
      var toRead := size * rate;
      if outstandingBytes > size * rate { toRead := outstandingBytes; }
      if toRead > buffer.Length { overrun := true; return; }
      var moved;
      moved, took := Fill(inbound, toRead);
      totalBytesRead := totalBytesRead + moved;
      KeptInOrder(consumed, sent, took, old(buffer[..]), buffer[..], outstandingBytes);
      lockstep := lockstep && (outstandingBytes == 0 || moved == 0);
      outstandingBytes := outstandingBytes + moved;
      consumed := consumed + took;
      if moved != 0 {
        toWrite := toWrite + moved;
        armed := true;
      }
    }

    method WritePhase(outbound: Stream, toWrite: nat) returns (ghost data: seq<byte>)
      requires Valid() && !overrun && toWrite == outstandingBytes && outbound.Valid()
      modifies `outstandingBytes, `totalBytesWritten, `overrun, `sent, `lockstep, outbound
      ensures Valid() && outbound.Valid() && consumed == old(consumed)
      ensures data <= buffer[..]
      ensures sent == old(sent) + data && outbound.content == old(outbound.content) + data
      ensures overrun ==> outstandingBytes > buffer.Length
      ensures !overrun && outstandingBytes > 0 ==> CutShort(old(outbound.results), outbound.results, outbound.Room())
      ensures lockstep <==> old(lockstep) && (overrun || outstandingBytes == 0)
      ensures outstandingBytes == old(outstandingBytes) - |data|
    {
      data := [];
      if toWrite > buffer.Length { overrun := true; return; }
      var writeInfo, calls := WriteToStream(buffer, outbound, size, toWrite);
      assert writeInfo.totalBytes < toWrite ==> CallFailed(old(outbound.results), calls - 1, outbound.Room());
      totalBytesWritten := totalBytesWritten + writeInfo.totalBytes;
      outstandingBytes := outstandingBytes - writeInfo.totalBytes;
      data := buffer[..writeInfo.totalBytes];
      sent := sent + data;
      lockstep := lockstep && outstandingBytes == 0;
    }

    /** One pass through the loop body after the poll: it takes and sends what it can, and what it sends comes
        from the start of the buffer, into whose start it has just read what it took. */
    method Pass(poll: Poll, inbound: Stream, outbound: Stream) returns (ghost e: Entry)
      requires Valid() && !overrun && outbound.Valid() && inbound != outbound
      modifies `outstandingBytes, `totalBytesRead, `totalBytesWritten, `armed, `overrun, `consumed, `sent, `lockstep
      modifies buffer, inbound, outbound
      ensures Valid() && outbound.Valid() && e.poll == poll
      ensures e.readCut == CutShort(old(inbound.results), inbound.results, |inbound.content|)
      ensures e.writeCut == CutShort(old(outbound.results), outbound.results, outbound.Room())
      ensures consumed == old(consumed) + e.took && e.took + inbound.content == old(inbound.content)
      ensures sent == old(sent) + e.data && outbound.content == old(outbound.content) + e.data
      ensures |e.took| <= buffer.Length && buffer[..] == e.took + old(buffer[..])[|e.took|..] && e.data <= buffer[..]
      ensures old(outstandingBytes) == 0 ==> e.data <= e.took
      ensures overrun ==> outstandingBytes > buffer.Length
      ensures !overrun ==> Served(old(outstandingBytes), e, buffer.Length)
      ensures !overrun ==> (lockstep <==> old(lockstep) && Clean(old(outstandingBytes), e))
    {
      ghost var took, data := [], [];
      var toWrite := outstandingBytes;
      if poll.canRead && !poll.quitAtRead { toWrite, took := ReadPhase(inbound); }
      if !overrun && poll.canWrite && !poll.quitAtWrite { data := WritePhase(outbound, toWrite); }
      Started(data, took, old(buffer[..])[|took|..]);
      e := Entry(poll, took, data, CutShort(old(inbound.results), inbound.results, |inbound.content|),
                 CutShort(old(outbound.results), outbound.results, outbound.Room()));
    }

    /** What the client does meanwhile and one pass of the loop. */
    method Round(poll: Poll, arrived: seq<byte>, departing: nat, inbound: Stream, outbound: Stream)
        returns (ghost e: Entry, ghost departed: seq<byte>)
      requires Valid() && Logged() && !overrun && outbound.Valid() && inbound != outbound
      modifies this, buffer, inbound, outbound
      ensures Valid() && Logged() && outbound.Valid() && log == old(log) + [e] && e.poll == poll
      ensures e.readCut == CutShort(old(inbound.results), inbound.results, |inbound.content|)
      ensures e.writeCut == CutShort(old(outbound.results), outbound.results, outbound.Room())
      ensures consumed == old(consumed) + e.took && e.took + inbound.content == old(inbound.content) + arrived
      ensures sent == old(sent) + e.data && departed + outbound.content == old(outbound.content) + e.data
      ensures old(outstandingBytes) == 0 ==> e.data <= e.took
      ensures overrun ==> outstandingBytes > buffer.Length
    {
      departed := Meanwhile(inbound, outbound, arrived, departing);
      ghost var before := outbound.content;
      e := Pass(poll, inbound, outbound);
      assert departed + outbound.content == old(outbound.content) + e.data by { Associative(departed, before, e.data); }
      assert Tells(log + [e], size * rate, overrun, lockstep) by {
        TellsMore(log, e, size * rate, overrun, lockstep);
      }
      LogMore(log, e);
      log := log + [e];
    }

    /** The books of the loop after some passes: all bytes of both channels are accounted for. `start` and
        `origin` are what the two channels held at first. */
    ghost predicate Accounted(polls: seq<Poll>, arrivals: seq<seq<byte>>, used: nat,
                              start: seq<byte>, content: seq<byte>,
                              origin: seq<byte>, sending: seq<byte>, gone: seq<byte>)
      reads this
    {
      && used <= |polls| == |arrivals| && Polls(log) == polls[..used]
      && consumed + content == start + Joined(arrivals[..used])
      && gone + sending == origin + sent
    }

    /** One round of the loop. */
    method NextRound(polls: seq<Poll>, arrivals: seq<seq<byte>>, departures: seq<nat>, used: nat,
                     inbound: Stream, outbound: Stream,
                     ghost start: seq<byte>, ghost origin: seq<byte>, ghost gone: seq<byte>)
        returns (ghost gone': seq<byte>)
      requires used < |polls| == |departures| && Valid() && Logged() && !overrun
      requires outbound.Valid() && inbound != outbound
      requires Accounted(polls, arrivals, used, start, inbound.content, origin, outbound.content, gone)
      modifies this, buffer, inbound, outbound
      ensures Valid() && Logged() && outbound.Valid() && (overrun ==> outstandingBytes > buffer.Length)
      ensures |log| == |old(log)| + 1 && log[..|old(log)|] == old(log) && log[|old(log)|].poll == polls[used]
      ensures Accounted(polls, arrivals, used + 1, start, inbound.content, origin, outbound.content, gone')
    {
      ghost var e, departed := Round(polls[used], arrivals[used], departures[used], inbound, outbound);
      Arrived(arrivals, used, old(consumed), old(inbound.content), e.took, inbound.content, start);
      Departed(gone, departed, old(outbound.content), outbound.content, origin, old(sent), e.data);
      PollsMore(old(log), e, polls, used);
      gone' := gone + departed;
    }

    /** The loop: it ends when enough bytes are written, when a poll fails, when the quit flag is seen, or
        at an overrun. Before each pass the client may have written `arrivals` and taken out some of
        the bytes on their way to it, at most `departures`; `gone` is all it has taken. Whatever arrived is
        consumed or still in the channel; whatever was sent is in the other channel or with the client; an
        overrun needs a client that had more than its window on the way; each pass took and sent all it could;
        and as long as no pass read on top of unsent bytes or wrote less than it had, the server has sent
        what it consumed, in order. */
    method Communicate(polls: seq<Poll>, arrivals: seq<seq<byte>>, departures: seq<nat>,
                       inbound: Stream, outbound: Stream, count: nat)
        returns (numReqs: nat, used: nat, ghost gone: seq<byte>)
      requires |arrivals| == |polls| == |departures|
      requires Valid() && Logged() && log == [] && !overrun && outbound.Valid() && inbound != outbound
      modifies this, buffer, inbound, outbound
      ensures Valid() && Logged() && outbound.Valid()
      ensures Accounted(polls, arrivals, used, old(inbound.content), inbound.content, old(outbound.content),
                        outbound.content, gone)
      ensures overrun ==> |old(inbound.content) + Joined(arrivals[..used])| - |sent| > buffer.Length
      ensures !overrun && AllClean(log) ==> sent <= consumed && |consumed| - |sent| <= buffer.Length
      ensures used < |polls| && !overrun ==>
                |sent| >= size * count || polls[used].quitAtHead || polls[used].failed || polls[used].quitAfterPoll
      ensures AllWentOn(log, size * count) && (!overrun ==> AllServed(log, size * rate))
      ensures numReqs == |sent| / size
    {
      var maxBytes := size * count;
      used, gone := 0, [];
      while used < |polls| && !overrun && totalBytesWritten < maxBytes && !polls[used].quitAtHead
        invariant Valid() && Logged() && outbound.Valid()
        invariant Accounted(polls, arrivals, used, old(inbound.content), inbound.content, old(outbound.content),
                            outbound.content, gone)
        invariant overrun ==> outstandingBytes > buffer.Length
        invariant AllWentOn(log, maxBytes)
        decreases |polls| - used
      {
        if polls[used].failed || polls[used].quitAfterPoll { break; }
        ghost var before := log;
        gone := NextRound(polls, arrivals, departures, used, inbound, outbound,
                          old(inbound.content), old(outbound.content), gone);
        WentOnMore(before, log, maxBytes);
        used := used + 1;
      }
      numReqs := totalBytesWritten / size;
    }
  }

  lemma Associative(a: seq<byte>, b: seq<byte>, c: seq<byte>)
    ensures a + (b + c) == (a + b) + c
  {}

  lemma Started(data: seq<byte>, took: seq<byte>, rest: seq<byte>)
    ensures data <= took + rest && |data| <= |took| ==> data <= took
  {
    if data <= took + rest && |data| <= |took| {
      assert forall i :: 0 <= i < |data| ==> data[i] == (took + rest)[i] == took[i];
    }
  }

  /** What one pass took from the client and sent to it, and whether calls of it moved nothing. */
  datatype Entry = Entry(poll: Poll, took: seq<byte>, data: seq<byte>, readCut: bool, writeCut: bool)

  /** A pass does what the poll and the quit flag allow, and nothing else: unless a call moves nothing, it takes
      a window from the client, and sends it all there is to send. */
  predicate Served(unsent: int, e: Entry, window: nat) {
    && (if e.poll.canRead && !e.poll.quitAtRead then !e.readCut ==> |e.took| == window else e.took == [])
    && (if e.poll.canWrite && !e.poll.quitAtWrite then !e.writeCut ==> |e.data| == unsent + |e.took| else e.data == [])
  }

  ghost predicate ServedAt(log: seq<Entry>, window: nat, i: nat)
    requires i < |log|
  {
    Served(|Taken(log[..i])| - |Sent(log[..i])|, log[i], window)
  }

  ghost predicate AllServed(log: seq<Entry>, window: nat) {
    forall i: nat :: i < |log| ==> ServedAt(log, window, i)
  }

  lemma ServedMore(log: seq<Entry>, e: Entry, window: nat)
    requires AllServed(log, window) && Served(|Taken(log)| - |Sent(log)|, e, window)
    ensures AllServed(log + [e], window)
  {
    var more, n := log + [e], |log|;
    forall i: nat | i <= n ensures ServedAt(more, window, i) {
      if i < n { assert ServedAt(log, window, i) && more[..i] == log[..i]; } else { assert more[..i] == log; }
    }
  }

  ghost function Taken(log: seq<Entry>): seq<byte> {
    if log == [] then [] else Taken(log[..|log| - 1]) + log[|log| - 1].took
  }

  ghost function Sent(log: seq<Entry>): seq<byte> {
    if log == [] then [] else Sent(log[..|log| - 1]) + log[|log| - 1].data
  }

  ghost function Polls(log: seq<Entry>): seq<Poll> {
    seq(|log|, i requires 0 <= i < |log| => log[i].poll)
  }

  /** A pass that read nothing on top of unsent bytes and, if it wrote, wrote all it had. */
  predicate Clean(unsent: int, e: Entry) {
    && (unsent == 0 || e.took == [])
    && (e.poll.canWrite && !e.poll.quitAtWrite ==> unsent + |e.took| == |e.data|)
  }

  ghost predicate CleanAt(log: seq<Entry>, i: nat)
    requires i < |log|
  {
    Clean(|Taken(log[..i])| - |Sent(log[..i])|, log[i])
  }

  ghost predicate AllClean(log: seq<Entry>) {
    forall i: nat :: i < |log| ==> CleanAt(log, i)
  }

  lemma CleanLess(log: seq<Entry>, e: Entry)
    requires AllClean(log + [e])
    ensures AllClean(log) && Clean(|Taken(log)| - |Sent(log)|, e)
  {
    var more, n := log + [e], |log|;
    assert more[..n] == log;
    forall i: nat | i < n ensures CleanAt(log, i) {
      assert CleanAt(more, i) && more[..i] == log[..i];
    }
    assert CleanAt(more, n);
  }

  lemma LogMore(log: seq<Entry>, e: Entry)
    ensures Taken(log + [e]) == Taken(log) + e.took && Sent(log + [e]) == Sent(log) + e.data
  {
    assert (log + [e])[..|log|] == log;
  }

  /** What a log says of the passes of a server that has not left its buffer. */
  ghost predicate Tells(log: seq<Entry>, window: nat, overrun: bool, lockstep: bool) {
    !overrun ==> AllServed(log, window) && (AllClean(log) ==> lockstep)
  }

  lemma TellsMore(log: seq<Entry>, e: Entry, window: nat, overrun: bool, lockstep: bool)
    requires !overrun ==> AllServed(log, window) && Served(|Taken(log)| - |Sent(log)|, e, window)
    requires !overrun && AllClean(log) && Clean(|Taken(log)| - |Sent(log)|, e) ==> lockstep
    ensures Tells(log + [e], window, overrun, lockstep)
  {
    if !overrun {
      ServedMore(log, e, window);
      if AllClean(log + [e]) { CleanLess(log, e); }
    }
  }

  /** The loop made its i-th pass because no poll had failed, no quit had been seen and bytes were missing. */
  ghost predicate WentOn(log: seq<Entry>, max: nat, i: nat)
    requires i < |log|
  {
    !log[i].poll.quitAtHead && !log[i].poll.failed && !log[i].poll.quitAfterPoll && |Sent(log[..i])| < max
  }

  ghost predicate AllWentOn(log: seq<Entry>, max: nat) {
    forall i: nat :: i < |log| ==> WentOn(log, max, i)
  }

  lemma WentOnMore(before: seq<Entry>, log: seq<Entry>, max: nat)
    requires |log| == |before| + 1 && log[..|before|] == before && AllWentOn(before, max) && |Sent(before)| < max
    requires !log[|before|].poll.quitAtHead && !log[|before|].poll.failed && !log[|before|].poll.quitAfterPoll
    ensures AllWentOn(log, max)
  {
    forall i: nat | i <= |before| ensures WentOn(log, max, i) {
      if i < |before| { assert WentOn(before, max, i) && log[..i] == before[..i] && log[i] == before[i]; }
    }
  }

  lemma PollsMore(log: seq<Entry>, e: Entry, polls: seq<Poll>, k: nat)
    requires k < |polls| && Polls(log) == polls[..k] && e.poll == polls[k]
    ensures Polls(log + [e]) == polls[..k + 1]
  {
    assert |log| == |polls[..k]| == k;
    forall i | 0 <= i <= k ensures Polls(log + [e])[i] == polls[i] {
      if i < k { assert Polls(log)[i] == polls[..k][i]; }
    }
  }

  lemma Arrived(arrivals: seq<seq<byte>>, k: nat, consumed: seq<byte>, content: seq<byte>,
                took: seq<byte>, left: seq<byte>, start: seq<byte>)
    requires k < |arrivals| && consumed + content == start + Joined(arrivals[..k])
    requires took + left == content + arrivals[k]
    ensures (consumed + took) + left == start + Joined(arrivals[..k + 1])
  {
    JoinedMore(arrivals, k);
    Associative(consumed, took, left);
    Associative(consumed, content, arrivals[k]);
    Associative(start, Joined(arrivals[..k]), arrivals[k]);
  }

  /** After a read into an empty buffer, or one that moved nothing, the buffer continues what was sent. */
  lemma KeptInOrder(consumed: seq<byte>, sent: seq<byte>, took: seq<byte>,
                    before: seq<byte>, after: seq<byte>, held: int)
    requires |took| <= |before| && after == took + before[|took|..]
    ensures
      0 <= held <= |before| && consumed == sent + before[..held] && (held == 0 || took == [])
      ==> consumed + took == sent + after[..held + |took|]
  {
    assert after[..|took|] == took;
    if took == [] { assert after == before; }
  }
}
