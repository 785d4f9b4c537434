/** The chunked transfer loops of the FIFO, domain and TCP helpers, over byte streams whose
    system calls return whatever the environment decides. */
module Transfer {
  import opened Arithmetic
  import opened Bytes

  /** What a helper call reports: whole requests, the bytes left over, and their sum. */
  datatype MetaData = MetaData(wholeReqs: nat, spareBytes: nat, totalBytes: nat)

  /** One direction of a connection. Each system call consumes the head of `results`: a positive
      entry allows that many bytes to move, anything else (or no entry) makes the call fail. */
  class Stream {
    const capacity: nat
    var content: seq<byte>
    var results: seq<int>

    constructor (capacity: nat, content: seq<byte>, results: seq<int>)
      ensures this.capacity == capacity && this.content == content && this.results == results
    {
      this.capacity := capacity;
      this.content := content;
      this.results := results;
    }

    ghost predicate Valid()
      reads this
    {
      |content| <= capacity
    }

    /** The bytes a write can still add. */
    ghost function Room(): int
      reads this
    {
      capacity - |content|
    }

    /** read(2) into buffer[off..off + asked). */
    method Read(buffer: array<byte>, off: nat, asked: nat) returns (n: int)
      requires off + asked <= buffer.Length
      modifies this, buffer
      ensures n == CallResult(old(results), asked, |old(content)|)
      ensures results == Rest(old(results))
      ensures n <= 0 ==> content == old(content) && buffer[..] == old(buffer[..])
      ensures n > 0 ==> content == old(content)[n..]
      ensures n > 0 ==> buffer[..] == Splice(old(buffer[..]), off, old(content)[..n])
    {
      n := CallResult(results, asked, |content|);
      results := Rest(results);
      if n > 0 {
        ghost var before := buffer[..];
        forall i | 0 <= i < n { buffer[off + i] := content[i]; }
        assert buffer[..] == Splice(before, off, content[..n]);
        content := content[n..];
      }
    }

    /** write(2) of buffer[off..off + asked). */
    method Write(buffer: array<byte>, off: nat, asked: nat) returns (n: int)
      requires off + asked <= buffer.Length && Valid()
      modifies this
      ensures Valid() && n == CallResult(old(results), asked, old(Room()))
      ensures results == Rest(old(results))
      ensures n <= 0 ==> content == old(content)
      ensures n > 0 ==> content == old(content) + buffer[off..off + n]
    {
      n := CallResult(results, asked, capacity - |content|);
      results := Rest(results);
      if n > 0 { content := content + buffer[off..off + n]; }
    }

    /** The process at the other end takes up to n bytes out. */
    method Drain(n: nat)
      requires Valid()
      modifies `content
      ensures Valid() && content == old(content)[Min(n, |old(content)|)..]
    {
      content := content[Min(n, |content|)..];
    }
  }

  function Rest(results: seq<int>): seq<int> {
    if results == [] then [] else results[1..]
  }

  /** The return value of one system call. */
  function CallResult(results: seq<int>, asked: int, available: int): int {
    if results == [] || available <= 0 then 0 else Min(results[0], Min(asked, available))
  }

  function Min(a: int, b: int): int {
    if a <= b then a else b
  }

  /** Call number k, the first being 0, moved nothing although bytes were asked for. */
  ghost predicate CallFailed(results: seq<int>, k: int, availableThen: int) {
    k >= 0 && (k >= |results| || results[k] <= 0 || availableThen <= 0)
  }

  /** A helper used up some results and stopped at one that moved nothing. */
  ghost predicate CutShort(before: seq<int>, after: seq<int>, availableThen: int) {
    exists calls: nat :: after == Drop(before, calls) && CallFailed(before, calls - 1, availableThen)
  }

  /** All bytes of the parts, in order. */
  ghost function Joined(parts: seq<seq<byte>>): seq<byte> {
    if parts == [] then [] else Joined(parts[..|parts| - 1]) + parts[|parts| - 1]
  }

  lemma JoinedMore(parts: seq<seq<byte>>, k: nat)
    requires k < |parts|
    ensures Joined(parts[..k + 1]) == Joined(parts[..k]) + parts[k]
  {
    assert parts[..k + 1][..k] == parts[..k];
  }

  lemma Regrouped(consumed: seq<byte>, content: seq<byte>, arrived: seq<byte>, start: seq<byte>, before: seq<byte>)
    requires consumed + content == start + before
    ensures consumed + (content + arrived) == start + (before + arrived)
  {
    assert consumed + (content + arrived) == (consumed + content) + arrived;
    assert start + (before + arrived) == (start + before) + arrived;
  }

  /** The other process between two passes: it has written some bytes and taken up to some others. */
  method Meanwhile(inbound: Stream, outbound: Stream, arrived: seq<byte>, departing: nat)
      returns (ghost taken: seq<byte>)
    requires outbound.Valid() && inbound != outbound
    modifies inbound`content, outbound`content
    ensures outbound.Valid() && inbound.content == old(inbound.content) + arrived
    ensures taken + outbound.content == old(outbound.content)
  {
    inbound.content := inbound.content + arrived;
    taken := outbound.content[..Min(departing, |outbound.content|)];
    outbound.Drain(departing);
  }

  /** Bytes taken out and bytes still there stay together the bytes that went in. */
  lemma Departed(gone: seq<byte>, taken: seq<byte>, before: seq<byte>, after: seq<byte>,
                 start: seq<byte>, sent: seq<byte>, data: seq<byte>)
    requires gone + before == start + sent && taken + after == before + data
    ensures (gone + taken) + after == start + (sent + data)
  {
    assert (gone + taken) + after == gone + (taken + after) == (gone + before) + data;
    assert start + (sent + data) == (start + sent) + data;
  }

  ghost predicate NoCallFails(results: seq<int>, n: nat) {
    n <= |results| && forall i :: 0 <= i < n ==> results[i] > 0
  }

  /** Whole requests and spare bytes make up the total, with less than one request to spare. */
  function Account(total: nat, chunk: nat): (info: MetaData)
    requires chunk > 0
    ensures info.totalBytes == total
    ensures info.wholeReqs * chunk + info.spareBytes == total && info.spareBytes < chunk
  {
    DivMod(total, chunk);
    MetaData(total / chunk, total % chunk, total)
  }

  lemma Extend(s: seq<byte>, total: nat, n: nat)
    requires total + n <= |s|
    ensures s[total..][..n] == s[total..total + n]
    ensures s[..total] + s[total..total + n] == s[..total + n]
    ensures s[total..][n..] == s[total + n..]
  {}

  /** A buffer that holds the first bytes of a stream, with the rest as it was before. */
  ghost predicate Holds(now: seq<byte>, start: seq<byte>, before: seq<byte>, total: nat) {
    total <= |start| && total <= |before| && now == start[..total] + before[total..]
  }

  lemma HoldsMore(now: seq<byte>, start: seq<byte>, before: seq<byte>, total: nat, n: nat)
    requires Holds(now, start, before, total) && total + n <= |start| && total + n <= |before|
    ensures Holds(Splice(now, total, start[total..][..n]), start, before, total + n)
    ensures start[total..][n..] == start[total + n..]
  {
    Extend(start, total, n);
    assert now[..total] == start[..total] && now[total + n..] == before[total + n..];
  }

  lemma OneMoreCall(calls: nat, chunk: nat)
    ensures (calls + 1) * chunk == calls * chunk + chunk
  {}

  lemma RestDropped(results: seq<int>, calls: nat)
    ensures Rest(Drop(results, calls)) == Drop(results, calls + 1)
  {}

  /** One pass of the read loop: a call for one request, or for what is left of the last one. */
  method ReadChunk(buffer: array<byte>, stream: Stream, chunk: nat, total: nat, numBytesToRead: nat,
                   ghost start: seq<byte>, ghost before: seq<byte>)
      returns (n: int)
    requires chunk > 0 && total < numBytesToRead <= buffer.Length
    requires Holds(buffer[..], start, before, total) && stream.content == start[total..]
    modifies buffer, stream
    ensures stream.results == Rest(old(stream.results))
    ensures n <= 0 ==> buffer[..] == old(buffer[..]) && stream.content == old(stream.content)
    ensures n <= 0 ==> old(stream.results) == [] || old(stream.results)[0] <= 0 || |start| <= total
    ensures n > 0 ==> n <= chunk && total + n <= numBytesToRead && total + n <= |start|
    ensures n > 0 ==> Holds(buffer[..], start, before, total + n) && stream.content == start[total + n..]
  {
    var canRead := chunk;
    if numBytesToRead - total < chunk { canRead := numBytesToRead - total; }
    n := stream.Read(buffer, total, canRead);
    if n > 0 { HoldsMore(old(buffer[..]), start, before, total, n); }
  }

  method ReadFromStream(buffer: array<byte>, stream: Stream, chunk: nat, numBytesToRead: nat)
      returns (info: MetaData, ghost calls: nat)
    requires chunk > 0 && numBytesToRead <= buffer.Length
    modifies buffer, stream
    ensures info.totalBytes <= numBytesToRead && info.totalBytes <= |old(stream.content)|
    ensures stream.results == Drop(old(stream.results), calls) && calls <= info.totalBytes + 1
    ensures info.totalBytes <= calls * chunk
    ensures info.totalBytes < numBytesToRead ==>
              CallFailed(old(stream.results), calls - 1, |old(stream.content)| - info.totalBytes)
    ensures info == Account(info.totalBytes, chunk)
    ensures stream.content == old(stream.content)[info.totalBytes..]
    ensures Holds(buffer[..], old(stream.content), old(buffer[..]), info.totalBytes)
  {
    calls := 0;
    if numBytesToRead == 0 { return Account(0, chunk), 0; }
    var total := 0;
    ghost var start, before, budget := stream.content, buffer[..], 0;
    while total < numBytesToRead
      invariant 0 <= total <= numBytesToRead && total <= |start|
      invariant stream.content == start[total..]
      invariant Holds(buffer[..], start, before, total)
      invariant stream.results == Drop(old(stream.results), calls) && calls <= total <= budget
      invariant budget == calls * chunk
    {
      RestDropped(old(stream.results), calls);
      var bytesRead := ReadChunk(buffer, stream, chunk, total, numBytesToRead, start, before);
      OneMoreCall(calls, chunk);
      calls, budget := calls + 1, budget + chunk;
      if bytesRead <= 0 { break; }
      total := total + bytesRead;
    }
    info := Account(total, chunk);
  }

  /** One pass of the write loop. */
  method WriteChunk(buffer: array<byte>, stream: Stream, chunk: nat, total: nat, numBytesToWrite: nat,
                    ghost start: seq<byte>)
      returns (n: int)
    requires chunk > 0 && total < numBytesToWrite <= buffer.Length && stream.Valid()
    requires stream.content == start + buffer[..total]
    modifies stream
    ensures stream.Valid() && stream.results == Rest(old(stream.results))
    ensures n <= 0 ==> stream.content == old(stream.content)
    ensures n <= 0 ==> old(stream.results) == [] || old(stream.results)[0] <= 0 || stream.capacity <= |start| + total
    ensures n > 0 ==> n <= chunk && total + n <= numBytesToWrite && stream.content == start + buffer[..total + n]
  {
    var canWrite := chunk;
    if numBytesToWrite - total < chunk { canWrite := numBytesToWrite - total; }
    n := stream.Write(buffer, total, canWrite);
    if n > 0 { assert buffer[..total + n] == buffer[..total] + buffer[total..total + n]; }
  }

  method WriteToStream(buffer: array<byte>, stream: Stream, chunk: nat, numBytesToWrite: nat)
      returns (info: MetaData, ghost calls: nat)
    requires chunk > 0 && numBytesToWrite <= buffer.Length && stream.Valid()
    modifies stream
    ensures stream.Valid()
    ensures info.totalBytes <= numBytesToWrite
    ensures stream.results == Drop(old(stream.results), calls) && calls <= info.totalBytes + 1
    ensures info.totalBytes <= calls * chunk
    ensures info.totalBytes < numBytesToWrite ==>
              CallFailed(old(stream.results), calls - 1, old(stream.Room()) - info.totalBytes)
    ensures info == Account(info.totalBytes, chunk)
    ensures stream.content == old(stream.content) + buffer[..info.totalBytes]
  {
    calls := 0;
    if numBytesToWrite == 0 { return Account(0, chunk), 0; }
    var total := 0;
    ghost var start, budget := stream.content, 0;
    while total < numBytesToWrite
      invariant 0 <= total <= numBytesToWrite && stream.Valid()
      invariant stream.content == start + buffer[..total]
      invariant stream.results == Drop(old(stream.results), calls) && calls <= total <= budget
      invariant budget == calls * chunk
    {
      RestDropped(old(stream.results), calls);
      var bytesWritten := WriteChunk(buffer, stream, chunk, total, numBytesToWrite, start);
      OneMoreCall(calls, chunk);
      calls, budget := calls + 1, budget + chunk;
      if bytesWritten <= 0 { break; }
      total := total + bytesWritten;
    }
    info := Account(total, chunk);
  }

  /** Blocking contract: if no call fails and there is room or data enough, everything moves. */
  lemma GenerousCallsMoveEverything(results: seq<int>, calls: nat, moved: nat, asked: nat, available: nat)
    requires NoCallFails(results, asked) && asked <= available && calls <= moved + 1 && moved <= asked
    requires moved < asked ==> CallFailed(results, calls - 1, available - moved)
    ensures moved == asked
  {}

  /** Through a FIFO channel a write followed by a read restores the buffer, however the two
      transfers are cut into system calls; when no call fails it restores all of it. */
  method RoundTrip(source: array<byte>, target: array<byte>, stream: Stream, chunk: nat, n: nat, readResults: seq<int>)
      returns (got: nat)
    requires chunk > 0 && n <= source.Length && n <= target.Length && source != target
    requires stream.content == [] && n <= stream.capacity
    modifies target, stream
    ensures got <= n && target[..got] == source[..got]
    ensures NoCallFails(old(stream.results), n) && NoCallFails(readResults, n) ==> got == n && stream.content == []
  {
    ghost var writeResults := stream.results;
    var written, writeCalls := WriteToStream(source, stream, chunk, n);
    stream.results := readResults;
    ghost var sent := stream.content;
    var read, readCalls := ReadFromStream(target, stream, chunk, written.totalBytes);
    got := read.totalBytes;
    if NoCallFails(writeResults, n) && NoCallFails(readResults, n) {
      GenerousCallsMoveEverything(writeResults, writeCalls, written.totalBytes, n, stream.capacity);
      GenerousCallsMoveEverything(readResults, readCalls, got, n, n);
    }
    assert target[..got] == sent[..got] == source[..got];
  }
}
