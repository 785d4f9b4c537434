# Models of the message-exchange benchmarks

Every benchmark of the repository runs two processes, a server and a client, that exchange messages of
`size` bytes over one inter-process medium, `count` times. This project models the exchange itself and
proves what the benchmarks rely on.

**The windowed echo protocol (FIFO, domain sockets, TCP).** The client keeps up to `rate` requests
outstanding; the server reads bytes into one buffer of `size * rate` bytes and writes them back. The three
pairs of `communicate` functions are one algorithm over three transports, so they are one two-process step
system (`Echo.dfy`): a step is one system call, one poll, or one of the statements between them, and the
environment chooses the poll results, the length of every transfer, the clock readings, the moments at
which a process is interrupted, and the interleaving. FIFO and domain helpers are *blocking* (they return
early only at end of file, on a closed reader or after a signal), TCP helpers are *non-blocking* (they may
return after any prefix). `Books.dfy` holds the client's counters and its array of latencies, and
`Latencies.dfy` says what they mean in terms of the passes of the loop alone: which pass stamped, wrote and read
a request, counted from the bytes that the calls moved. `EchoContent.dfy` observes the channels from outside and
proves which bytes cross them, `EchoPasses.dfy` ties the client of the step system to its passes,
`EchoLockstep.dfy` is about the blocking regime, `EchoTheorems.dfy` safety, `EchoTermination.dfy` the end of both
loops, and `EchoLost.dfy`, `EchoDrift.dfy` and `EchoStranded.dfy` the exact conditions under which TCP clients
get all their bytes, request counters agree with byte counters, and a server left alone finishes;
`EchoOverrun.dfy` says when a server without a client's window would leave its buffer.
`Transfer.dfy`, `ClientProgram.dfy` and `ServerProgram.dfy` are the helpers and the loops as imperative
programs that update counters, buffers and the array in place; the client program computes, pass by pass, the
books that the step system uses too (`AfterRead`, `AfterStamp`, `AfterWrite`), and reports latencies that are
differences of the clock readings of its own passes; the server program logs what each pass took and sent, and
echoes in order as long as no pass read on top of unsent bytes or sent less than it had.

**The ping-pong handshakes.** `Turns.dfy` is a machine in which two sides hold the turn alternately and only
the holder may touch the shared medium. Shared memory and the mapped file (`GuardedMemory.dfy`, byte by byte,
payload behind or on top of the guard byte), the bidirectional eventfd (`Eventfd.dfy`), the message queue
(`MessageQueue.dfy`) and the pipe with coalescing signals (`SignalPipe.dfy`) are shown to implement it: each
action is labelled as work on the medium, as a hand-over or as neither, each belongs to one of the two
processes, and for every schedule and every run the work and the hand-overs of a process fall into its own
turns, the hand-overs alternate, and at the end each process has made exactly the number it should. In each of
these modules a class `Processes` holds the same state in mutable fields and arrays; its methods take exactly
the steps that the proofs are about, and `Run` follows an arbitrary schedule.

**The fork-join sum** of the pthread demo (`ForkJoin.dfy`): every interleaving of a growing tree of threads.

**The statistics** (`Statistics.dfy`): accumulators in 64-bit fields, the comparator through a 64-bit
difference and a 32-bit int, minimum, maximum and median.

`Systems.dfy` has the transition systems, reachability, and the arguments about finite and endless runs used
throughout.

Where the code does less than its comments or its shape suggest, the exact condition is proved:

- An uninterrupted TCP client can still get all its bytes if and only if the server has not closed on it while
  it was committed to a write (`TcpProgressExactly`); such a state can be reached if and only if
  `size * rate > 1` (`ClientCanBeLostIffWindowIsWide`). Both rest on a write failing as soon as the peer has
  closed; a TCP that accepts one more write would let the client make another pass.
- The server's buffer is large enough because of the client's window only (`ServerBufferSuffices`): left alone
  with some bytes on their way, the same code can leave its buffer if and only if they flood it
  (`OverrunsIffFlooded`).
- The request counter of a TCP client stands for its outstanding bytes at every loop head if and only if
  requests are single bytes (`CountersAgreeIffRequestsAreBytes`); if and only if they are larger it can wrap
  below zero with no byte outstanding (`CounterCanWrapIffRequestsCanSplit`).
- A server whose client has left can finish by itself if and only if it is not doomed: it has bytes to take or
  to send, or has sent enough (`ServerFinishesIffNotDoomed`); a client interrupted before its first write dooms
  it (`EarlyQuitDoomsTheServer`).
- The pipe benchmark completes, in every run, if and only if a message fits into the pipe or there is none to
  send (`CompletesIffMessageFits`).
- Under a schedule that leaves neither process out for ever the eventfd benchmark ends if and only if from some
  moment on no process takes its own token (`EndsIffTheftsStop`); such thefts can go on for ever
  (`TheftCanStarve`).
- `Benchmarks.minimum` is the least measured time if and only if some time fits a 32-bit int
  (`MinimumIsExactIffSomeTimeIsSmall`), because the field starts at the largest such int.
- The comparator given to `qsort` has the right sign if and only if the low half of the difference has it
  (`ComparatorSign`), and an array is sure to be sorted if and only if it has on every pair of values present
  (`SortsIffWellOrdered`); on values 2^31 or more apart it can be cyclic (`ComparatorCycles`,
  `CycleIsAcceptedUnsorted`).

## Model

| member | source | states |
|---|---|---|
| Transfer.Stream.Read | source/fifo/helper.c:33-37 | one read call moves what the environment allows, never more than asked or present, into the given part of the buffer and nothing else |
| Transfer.Stream.Write | source/fifo/helper.c:71-75 | one write call appends a prefix of what it is given, never beyond the channel's capacity |
| Transfer.Meanwhile | source/domain/server.c:59-103 | between two passes the other process adds bytes to one channel and takes some out of the other, and none is lost |
| Transfer.ReadFromStream | source/fifo/helper.c:11-47 | the read loop ends for every sequence of call results, moves exactly a prefix of the stream into the start of the buffer, at most one request per call, stops short only at a call that moved nothing, and accounts for all bytes |
| Transfer.WriteToStream | source/fifo/helper.c:49-85 | the write loop ends, appends exactly a prefix of the buffer, at most one request per call, and stops short only at a call that moved nothing |
| Transfer.Account | source/tcp/helper.c:58-60 | whole requests times request size plus spare bytes is the total, with less than one request to spare |
| Transfer.GenerousCallsMoveEverything | source/domain/helper.c:34-55 | blocking contract: when no call fails and there is data or room, everything asked for moves |
| Transfer.RoundTrip | source/fifo/helper.c:25-78 | a write followed by a read of what was written restores the buffer, however both transfers are cut into calls, and all of it when no call fails |
| Books.ReadKeepsLedger | source/fifo/client.c:132-144 | a read call keeps the ledger: finished slots stay finished, each newly read slot is differenced once, and no time is out of order |
| Books.StampKeepsLedger | source/fifo/client.c:146-149 | stamping keeps the ledger, also when it repeats because no write was possible, never touches a finished slot, and leaves a full window of stamped slots ahead of the read cursor |
| Books.WriteKeepsLedger | source/fifo/client.c:152-161 | a write of whole requests into the window keeps the ledger: every request written was stamped before |
| Books.ReportedLatencies | source/fifo/client.c:163-165 | under the ledger every slot below the reported count holds read time minus stamp, not below zero, and at least the interval from the start of the write to the read |
| Books.WindowAndDriftInEveryRun | source/tcp/client.c:162-208 | in every run of the loop, with any partial transfers, outstanding bytes stay within one window and the drift ledger balances |
| Books.WholeRunsKeepTheLedger | source/domain/client.c:110-156 | in every run whose transfers are whole requests the ledger holds, and request and byte counters agree |
| Books.RunKeepsLedger | source/domain/client.c:110-156 | the ledger also holds when the last write, and only that, was cut short inside a request |
| Books.ReportedPrefixIsFinished | source/fifo/client.c:113-165 | end to end: whenever such a run stops, also after a last partial write, the reported prefix holds finished latencies only; if all bytes were read, it is all `count` slots |
| Latencies.CountersCount | source/tcp/client.c:177-207 | after any passes, partial or not, every counter of the client is the sum of what the calls of these passes moved, and its send cursor the sum of the free windows |
| Latencies.HistoriesAreDated | source/fifo/client.c:131-161 | after any passes: each stamp is the clock reading of the pass that stamped that slot, each write time that of the pass whose write covered that request, each read time that of the pass whose read did |
| Latencies.CursorsInOrder | source/domain/client.c:119-155 | at every pass of a run of whole requests no more requests are read than written before it and no more written than stamped |
| Latencies.PassesInOrder | source/fifo/client.c:131-161 | a request is stamped no later than the pass that writes it and written in a pass before the one that reads it |
| Latencies.LatenciesAreMeasured | source/fifo/client.c:113-165 | whenever a run of whole requests stops, the client reports the number of requests read, or `count`; every slot below it is the reading of the clock after its own read minus the one with which it was stamped, at least the time since its write began; and that is every slot if all bytes were read |
| ClientProgram.UpdateWriteTimes | source/fifo/client.c:40-56 | exactly the existing slots of the given range are set to the time, whatever the cursor |
| ClientProgram.UpdateReadWriteTimes | source/fifo/client.c:58-75 | exactly the existing slots of the given range become the time minus their old value, wrapping at 64 bits |
| ClientProgram.Client.constructor | source/fifo/client.c:82-111 | the counters start as empty books over an array of `count` slots |
| ClientProgram.Client.ReadPhase | source/fifo/client.c:131-144 | the reading part of a pass does to counters and array what the books record, delivers the channel's bytes in order, and stops short only at a failed call |
| ClientProgram.Client.StampPhase | source/fifo/client.c:146-149 | the stamping part of a pass does to send cursor and array what the books record, which HistoriesAreDated ties to the clock reading |
| ClientProgram.Client.WritePhase | source/fifo/client.c:151-161 | the writing part of a pass stays within the window, sends a prefix of the write buffer, and stops short only at a failed call |
| ClientProgram.Client.Act | source/domain/client.c:119-155 | one whole pass is one legal step of the books; it writes if and only if poll, quit flag and window allow it |
| ClientProgram.Client.Pass | source/tcp/client.c:171-207 | a pass extends the recorded run by one step, writes if and only if poll, quit flag and window allow it, takes the bytes it reads from the inbound channel in order, adds exactly a prefix of the write buffer to the outbound one, and stops either transfer short only at a failed call |
| ClientProgram.Client.Round | source/fifo/client.c:115-162 | a pass together with what the server did before it keeps the bytes of both channels |
| ClientProgram.Client.NextRound | source/tcp/client.c:162-208 | a round is made only for its reasons, does what its poll allows, and leaves every byte of both channels accounted for |
| ClientProgram.ReportIsMeasured | source/domain/client.c:158-163 | in a run with a clock that never goes back and whole transfers, but for a last write, each reported slot is the difference of the clock readings of two polled passes; all slots are reported if all bytes were read |
| ClientProgram.Client.Communicate | source/fifo/client.c:115-165 | the loop goes on and ends for its reasons only and writes whenever it can; bytes received and still there are those that arrived, bytes taken by the server and still there are those sent; the totals and the report are those of the passes made; and in a regular run each reported latency is the time from the pass that stamped its request to the pass that read it |
| ServerProgram.Server.constructor | source/fifo/server.c:43-67 | the server starts with nothing consumed, nothing sent and a buffer of one window |
| ServerProgram.Server.ReadPhase | source/fifo/server.c:87-109 | the reading part moves exactly the bytes it takes from the channel into the start of the buffer, touches nothing behind them, asks for more than the buffer holds only when more than a window is unsent, and stops short only at a failed call |
| ServerProgram.Server.WritePhase | source/fifo/server.c:111-115 | the writing part sends a prefix of the buffer, all that is unsent unless a call fails |
| ServerProgram.Server.Pass | source/tcp/server.c:216-243 | one pass takes and sends what poll and quit flag allow, a window and all it has unless a call fails; what it sends is a prefix of the buffer into whose start it has just read, so a pass that starts with nothing unsent echoes what it took; an access outside the buffer needs more than a window unsent |
| ServerProgram.Server.Round | source/fifo/server.c:69-116 | a pass together with what the client did before it: the log grows by what this pass took and sent, and the bytes of both channels are kept |
| ServerProgram.Server.NextRound | source/fifo/server.c:69-116 | a round serves the next poll and leaves every byte of both channels accounted for |
| ServerProgram.Server.Communicate | source/fifo/server.c:69-122 | the loop goes on and ends for its reasons only; whatever arrived is consumed or still in the channel, whatever was sent is in the other one or with the client; each pass takes and sends all it can; as long as no pass read on top of unsent bytes or sent less than it had, what was sent is a prefix of what was consumed, at most a window behind; an overrun needs a client that exceeded its window |
| Echo.WindowBoundsServer | source/tcp/server.c:220-243 | the server's unsent bytes and both channels together never exceed the client's window |
| Echo.StepKeepsBytes | source/tcp/client.c:162-208 | every step of either process, and every interrupt, keeps conservation, the bounds of both sides and both channels |
| EchoRunning.StepKeepsRunning | source/fifo/server.c:69-119 | without interrupts, what a poll reported still holds at the first call that relies on it, and a process leaves its loop only when its count is complete or its peer has left |
| EchoLockstep.StepKeepsRequests | source/fifo/client.c:136-160 | over blocking transports every step keeps the latency ledger and the equality of byte and request counters |
| EchoLockstep.StepKeepsBlocking | source/fifo/client.c:115-162 | over blocking transports every step keeps client and server in step and the bytes of the batch in order round the loop |
| EchoLockstep.ClientBatchIsPayload | source/fifo/client.c:132-135 | when a client's read call is complete the read buffer equals the write buffer byte for byte |
| EchoLockstep.ServerBatchIsPayload | source/fifo/server.c:95-98 | when a server's read call is complete its buffer equals the client's write buffer byte for byte |
| EchoLockstep.ExitTotals | source/domain/client.c:110-161 | at its exit the client has read size times rate times count divided by rate, rounded up, and so has the server written when it has left |
| EchoProgress.TotalsAreBounded | source/tcp/server.c:204-244 | server writes and client reads never exceed maxBytes - 1 + one window, client writes and server reads maxBytes - 1 + two windows |
| EchoProgress.RemainingFallsByClient | source/tcp/client.c:177-207 | each of the client's byte-moving steps lowers the bytes still to move and no other step of it changes them |
| EchoProgress.RemainingFallsByServer | source/tcp/server.c:227-243 | the same for the server |
| EchoProgress.SomeoneMoves | source/fifo/helper.c:25-40 | client and server never both wait for each other inside their calls |
| EchoProgress.NeverBothStuck | source/domain/server.c:59-103 | in every reachable state of an uninterrupted run with an unfinished process, some process is not waiting |
| EchoProgress.EchoCanAlwaysFinish | source/fifo/server.c:69-119 | no reachable state of an uninterrupted run, over either transport, is a dead end: both loops can still be brought to their end |
| EchoTermination.BlockingCallsAreNotIdle | source/fifo/helper.c:25-40 | over blocking transports the only steps that lead nowhere are polls |
| EchoTermination.StepCounts | source/fifo/server.c:69-116 | every step of either process lowers one measure, except that a poll or call that finds nothing to do raises it by at most three |
| EchoTermination.RunsAreBounded | source/tcp/client.c:162-208 | every uninterrupted run, over either transport, has at most 54 (maxBytes + window) - 26 steps plus four for each poll or call that finds nothing to do |
| EchoTermination.TruthfulPollsAreIdleOnlyInWaiting | source/domain/server.c:63-103 | a poll that reports all there is leads to no transfer only when its process has to wait for the other one |
| EchoTermination.BothQuietBothDone | source/fifo/client.c:115-162 | client and server are never both unable to get on before both loops have ended |
| EchoTermination.FairRunsFinish | source/fifo/server.c:69-119 | both loops end in every uninterrupted run with truthful polls in which neither process is left out for ever, over either transport and for all parameters, including the client's trailing write, which the server's close releases |
| EchoContent.ContentInOrder | source/tcp/helper.c:78-100 | in every reachable state, over both kinds of transport, with any partial transfers and interrupts: what the client has read is a prefix of what the server has sent, what the server has read a prefix of what the client has sent; every call moves the bytes at the start of its buffer; as long as the server has not read on top of unsent bytes nor left a write unfinished, what it has sent is a prefix of what it has read, and the client reads back what it wrote; the byte counters count these bytes |
| EchoContent.StepKeepsSeen | source/tcp/server.c:227-243 | every step of either process keeps the content of channels, calls and echo in order |
| EchoContent.RunsAreSeen | source/tcp/server.c:204-244 | every run of the protocol can be observed in this way |
| EchoPasses.BooksAreOfThePasses | source/tcp/client.c:177-207 | over either transport, interrupted or not: between two passes the counters and slots of the client are those of a run of its loop that keeps to the window, with the reads, stamps and writes of its own steps |
| EchoPasses.LatenciesOfTheProtocol | source/fifo/client.c:113-165 | when an uninterrupted blocking client has left its loop, each of its `count` slots is the time between the step that stamped its request and the step that read it, at least the time from the start of its write to that read |
| EchoTheorems.BytesAreConserved | source/tcp/client.c:162-208 | in every reachable state, interrupted or not, the client's outstanding bytes are exactly those in both channels and in the server, and lie between 0 and one window |
| EchoTheorems.ServerBufferSuffices | source/tcp/server.c:183-243 | in every reachable state the server's reads and writes stay inside its buffer and the branch that asks for more is never taken |
| EchoOverrun.OverrunsIffFlooded | source/tcp/server.c:216-243 | for every configuration: the same server code left alone with some bytes on their way can leave its buffer if and only if they exceed a window by one more read call's worth and can then be sent back or be followed by an enlarged read |
| EchoOverrun.FloodedServerOverruns | source/fifo/server.c:87-115 | a run of the server alone that leaves its buffer, for every such configuration |
| EchoOverrun.UnfloodedServerStaysInside | source/fifo/server.c:87-115 | with fewer bytes no run of the server alone leaves it |
| EchoTheorems.TransfersAreBounded | source/tcp/server.c:204-244 | every run, interrupted or not, contains a bounded number of byte-moving steps |
| EchoTheorems.DriftIsAccountedFor | source/tcp/client.c:179-206 | in every reachable state, with any partial transfers and interrupts, byte window minus size times request window is exactly the spare bytes written minus the spare bytes read |
| EchoTheorems.LockstepEcho | source/fifo/server.c:87-115 | in every reachable state of a blocking run the server holds nothing or one window at its loop head, and each batch comes back byte for byte |
| EchoTheorems.ClientExitIsComplete | source/fifo/client.c:113-165 | when an uninterrupted blocking client has left its loop, both totals are the whole batches that cover `count` requests and all `count` latencies are finished |
| EchoLost.LostForever | source/tcp/client.c:198-208 | a TCP client on which the server has closed while it is committed to a write never gets another byte, in any run, if a write to a closed peer fails at once |
| EchoLost.TcpProgressExactly | source/tcp/client.c:162-208 | in every reachable state of a TCP run the client can still get all its bytes if and only if it is not lost in that sense; if it is, no byte moves any more |
| EchoLost.LastByteLosesTheClient | source/tcp/server.c:194-244 | with all but one byte echoed the server can count itself finished and close between the client's poll and its write |
| EchoLost.ClientCanBeLostIffWindowIsWide | source/tcp/client.c:198-208 | for all parameters: a client can be lost if and only if size times rate is more than one |
| EchoDrift.OneByteRequestsAgree | source/tcp/client.c:179-206 | with requests of one byte the request counter equals the outstanding bytes in every reachable state |
| EchoDrift.CounterWraps | source/tcp/client.c:183-206 | for all larger sizes a run that writes one request byte by byte and reads it back in one call wraps the unsigned counter, with no byte outstanding |
| EchoDrift.CountersAgreeIffRequestsAreBytes | source/tcp/client.c:179-206 | request and byte counters agree at every loop head of every TCP run if and only if a request is one byte |
| EchoDrift.CounterCanWrapIffRequestsCanSplit | source/tcp/client.c:183-206 | the unsigned request counter of a TCP client can wrap if and only if a request has more than one byte |
| EchoStranded.DoomedStaysDoomed | source/domain/server.c:59-103 | no step of its own leads a doomed server out of its loop |
| EchoStranded.ServerFinishesIffNotDoomed | source/fifo/server.c:69-119 | a server whose client has left, in whatever way, can finish by itself if and only if it is not doomed |
| EchoStranded.EarlyQuitDoomsTheServer | source/domain/client.c:110-117 | an interrupt of the client before its first write reaches a doomed state |
| Turns.TakesTurns | source/shm/server.c:47-60 | for every schedule of any medium that implements the turn machine: no process works or hands over except in its turn, hand-overs alternate, and at the end each process has made exactly its half |
| Turns.RunsTakeTurns | source/eventfd/eventfd-bi.c:45-71 | every run of such a medium is such a schedule |
| Turns.FairSchedulesFinish | source/shm/server.c:28-60 | a medium whose steps change nothing or bring the end closer ends under every schedule that leaves neither process out for ever |
| GuardedMemory.ServerKeepsInv | source/mmap/server.c:44-64 | every load, store and copied byte of the server keeps the handshake invariant, with the payload behind the guard or over it |
| GuardedMemory.ClientKeepsInv | source/mmap/client.c:33-47 | every load, store and copied byte of the client keeps it too |
| GuardedMemory.ServerStepRefines | source/mmap/server.c:35-64 | the server touches the region only while it holds the turn; the fill letter wakes nobody; only the guard store hands over |
| GuardedMemory.ClientStepRefines | source/mmap/client.c:24-47 | the same for the client |
| GuardedMemory.RegionImplementsTurns | source/shm/server.c:37-64 | either guarded region with its two programs implements the turn machine, step by step |
| GuardedMemory.RegionTakesTurns | source/mmap/server.c:44-64 | for every schedule each process fills, copies and notifies only in its turn, notifications alternate, and at the end the server has made `count` of them and the client one more |
| GuardedMemory.OnlyTheHolderTouches | source/mmap/client.c:33-47 | at byte granularity whoever changes the region or copies from it holds the turn |
| GuardedMemory.RegionRunsTakeTurns | source/shm/client.c:27-47 | every run of either region keeps strictly to the turns |
| GuardedMemory.SpinningEnds | source/mmap/server.c:35-64 | both loops end under every schedule that leaves neither process out for ever |
| GuardedMemory.CopiesMatchFills | source/shm/client.c:27-47 | every byte of the k-th copy of each side, and of its buffer once filled, is a star stored by the other side in round k, except that in the mapped file the first is the notify letter; rounds differ by at most one and both sides finish exactly `count` rounds |
| GuardedMemory.HolderMoves | source/shm/server.c:28-31 | unless both are done, the side that holds the turn is not spinning |
| GuardedMemory.ServerStepCounts | source/shm/server.c:47-60 | a server step is a spin that changes nothing or brings the server exactly one step closer to its end |
| GuardedMemory.ClientStepCounts | source/shm/client.c:35-44 | the same for the client |
| GuardedMemory.RegionFinishes | source/mmap/server.c:50-64 | from every reachable state both loops can be run to their end |
| GuardedMemory.StepsAreBounded | source/mmap/client.c:40-47 | a run has no more steps that are not spins than the two loops together |
| GuardedMemoryProgram.Processes.ServerActs | source/mmap/server.c:50-64 | the server's next load, store or copied byte, in place, is the step reasoned about |
| GuardedMemoryProgram.Processes.ClientActs | source/mmap/client.c:38-47 | the client's next load, store or copied byte, in place, is the step reasoned about |
| GuardedMemoryProgram.Processes.Run | source/shm/server.c:44-60 | under an arbitrary schedule the region, buffers and loop variables in memory are those of a reachable state |
| Eventfd.StepKeepsInv | source/eventfd/eventfd-bi.c:18-43 | every read, write and write-back keeps one token or none, in one place |
| Eventfd.EnabledStepRefines | source/eventfd/eventfd-bi.c:18-43 | only the holder uses up a token or puts one there; thefts and write-backs are neither work nor hand-overs |
| Eventfd.StutterKeepsTokens | source/eventfd/eventfd-bi.c:32-41 | what is neither work nor a hand-over leaves the tokens and both loop counters as they are |
| Eventfd.DescriptorImplementsTurns | source/eventfd/eventfd-bi.c:45-71 | the descriptor with its two programs implements the turn machine, step by step |
| Eventfd.TokensTakeTurns | source/eventfd/eventfd-bi.c:45-71 | for every schedule tokens are used up and put there only in turn, hand-overs alternate, and at the end each process has made `count` |
| Eventfd.TokenRunsTakeTurns | source/eventfd/eventfd-bi.c:45-71 | every run of the eventfd benchmark keeps strictly to the turns |
| Eventfd.TokensAreConserved | source/eventfd/eventfd-bi.c:12-71 | counter plus both held values is 0, 1 or 2 and in one place; some process is enabled until both are done; then the counter is 0 and all rounds are made |
| Eventfd.StealingLosesNothing | source/eventfd/eventfd-bi.c:32-41 | taking one's own token and writing it back leaves the state as it was |
| Eventfd.OnlyTheftsDelay | source/eventfd/eventfd-bi.c:18-43 | every step but the reading of one's own token lowers one measure, and that raises it by one |
| Eventfd.TheftCanStarve | source/eventfd/eventfd-bi.c:28-41 | from a reachable state three actions, with the server tried while the client holds its own token, lead back to that state |
| Eventfd.EndsIffTheftsStop | source/eventfd/eventfd-bi.c:18-66 | under a schedule that leaves neither process out for ever, both loops end if and only if from some moment on no process takes its own token |
| Eventfd.SomeoneAdvances | source/eventfd/eventfd-bi.c:18-43 | until both are done some enabled step, never a theft, brings the end closer |
| Eventfd.TokensFinish | source/eventfd/eventfd-bi.c:45-65 | from every reachable state both loops can be run to their end |
| Eventfd.Processes.ClientActs | source/eventfd/eventfd-bi.c:45-50 | the client's next call or comparison, in place, is the step reasoned about |
| Eventfd.Processes.ServerActs | source/eventfd/eventfd-bi.c:53-66 | the server's next call or comparison, in place, is the step reasoned about |
| Eventfd.Processes.Run | source/eventfd/eventfd-bi.c:45-71 | under an arbitrary schedule the mutable state is that of the state machine |
| MessageQueue.ServerKeepsInv | source/mq/server.c:32-73 | the server's sends and receives keep at most one message and never fail |
| MessageQueue.ClientKeepsInv | source/mq/client.c:13-46 | the client's receives and sends do too |
| MessageQueue.QueueImplementsTurns | source/mq/server.c:24-80 | the queue with its two programs implements the turn machine, step by step |
| MessageQueue.QueueTakesTurns | source/mq/server.c:32-73 | for every schedule messages are sent and received only in turn, sends alternate beginning with the server's, and at the end each process has made `count` |
| MessageQueue.QueueRunsTakeTurns | source/mq/client.c:13-46 | every run of the message-queue benchmark keeps strictly to the turns |
| MessageQueue.FairSendingEnds | source/mq/server.c:32-73 | both loops end under every schedule that leaves neither process out for ever |
| MessageQueue.AtMostOneMessage | source/mq/server.c:43-70 | the queue holds at most one message and is empty at every send, so the no-wait send succeeds; both sides use the requested size, at most 2048; no length check fails, and every message queued or received is that many of its sender's letter |
| MessageQueue.EveryStepCounts | source/mq/client.c:13-46 | every step brings the end closer |
| MessageQueue.QueueFinishes | source/mq/server.c:32-73 | from every reachable state both loops can be run to their end |
| MessageQueue.Processes.constructor | source/mq/server.c:105-116 | both processes start from the same clamped size |
| MessageQueue.Processes.ServerActs | source/mq/server.c:40-70 | the server's next send or receive with its checks, in place, is the step reasoned about |
| MessageQueue.Processes.ClientActs | source/mq/client.c:32-45 | the client's next receive or send with its checks, in place, is the step reasoned about |
| MessageQueue.Processes.Run | source/mq/server.c:32-73 | under an arbitrary schedule the mutable state is that of the state machine |
| SignalPipe.ServerKeepsInv | source/pipe/pipe.c:65-79 | the server's waits, partial writes and notifications keep the handshake invariant |
| SignalPipe.ClientKeepsInv | source/pipe/pipe.c:35-46 | the client's waits, partial reads and notifications keep it too |
| SignalPipe.PipeImplementsTurns | source/pipe/pipe.c:26-86 | the pipe with its two programs implements the turn machine, step by step |
| SignalPipe.PipeTakesTurns | source/pipe/pipe.c:35-79 | for every schedule each process waits, moves bytes and notifies only in its turn, notifications alternate, and at the end the server has made `count` of them and the client one more |
| SignalPipe.PipeRunsTakeTurns | source/pipe/pipe.c:26-86 | every run of the pipe benchmark keeps strictly to the turns |
| SignalPipe.CoalescingLosesNothing | source/common/signals.c:80-91 | whenever a process notifies, the other's signal is not pending, at most one is pending at a time, and whenever the client answers its buffer is the server's byte for byte |
| SignalPipe.EveryRunEnds | source/pipe/pipe.c:35-79 | every run, however scheduled and cut into calls, has no more steps than the two loops have between them |
| SignalPipe.CompletesIffMessageFits | source/pipe/pipe.c:70-77 | every run that cannot be continued has completed both loops, if and only if a message fits into the pipe or there is none to send; if it does not fit, no run completes |
| SignalPipe.EveryStepCounts | source/pipe/pipe.c:38-46 | every step brings the end closer |
| SignalPipe.Processes.ServerWaits | source/pipe/pipe.c:77-78 | taking the pending signal, in place, is the step reasoned about |
| SignalPipe.Processes.ServerWrites | source/pipe/pipe.c:70-74 | one part of the message going into the pipe, in place, is the step reasoned about |
| SignalPipe.Processes.ServerNotifies | source/pipe/pipe.c:76 | setting the client's pending bit, in place, is the step reasoned about |
| SignalPipe.Processes.ClientWaits | source/pipe/pipe.c:39 | taking the pending signal, in place, is the step reasoned about |
| SignalPipe.Processes.ClientReads | source/pipe/pipe.c:41-43 | one part of the message coming out of the pipe into the buffer, in place, is the step reasoned about |
| SignalPipe.Processes.ClientNotifies | source/pipe/pipe.c:36-45 | setting the server's pending bit, in place, is the step reasoned about |
| SignalPipe.Processes.Run | source/pipe/pipe.c:26-86 | under an arbitrary schedule the mutable state is that of the state machine |
| ForkJoin.StepHasEffect | source/other/pthread-test.c:98-118 | whichever thread of the tree steps, what it adds to the sum leaves the unfinished subintervals, its index is added and no other, and the mutex has the holder it should have |
| ForkJoin.FuelFalls | source/other/pthread-test.c:99-117 | every step of every thread, including splits and joins, lowers one measure |
| ForkJoin.SomeThreadMoves | source/other/pthread-test.c:101-116 | until the outermost call has returned some thread can step, the holder of the mutex if there is one |
| ForkJoin.EveryStepCounts | source/other/pthread-test.c:98-118 | the invariant is inductive, every schedule ends, and none ends early |
| ForkJoin.SumIsConserved | source/other/pthread-test.c:98-123 | at every moment of every interleaving accumulated sum plus unfinished subintervals is constant, every index is pending or added, once, and at most one thread is between lock and unlock |
| ForkJoin.SumOfIsSum | source/other/pthread-test.c:98-118 | inside the array the sum of an interval is the sum of that part of the array |
| ForkJoin.RecursiveAdditionIsCorrect | source/other/pthread-test.c:98-123 | when the outermost call has returned the sum has grown by exactly the sum of the array from first to last, in the multiset of added indices each index of the interval occurs once and no other, and the mutex is free |
| ForkJoin.ParallelAddIsCorrect | source/other/pthread-test.c:32-53 | the same sum and the same indices for two threads that add the two halves and are joined |
| ForkJoin.Adder.RecursiveAddition | source/other/pthread-test.c:98-118 | the function itself, under the schedule that runs each created thread at once, grows the sum by the sum of the array from first to last |
| Statistics.Benchmarks.Setup | source/common/benchmarks.c:23-29 | the fields are the folds of an empty history |
| Statistics.Benchmarks.Benchmark | source/common/benchmarks.c:31-44 | after each call the fields are the folds of the measured history |
| Statistics.Benchmarks.AddToBounds | source/common/benchmarks.c:34-40 | minimum and maximum follow the history |
| Statistics.Benchmarks.AddToSums | source/common/benchmarks.c:42-43 | the sums follow the history and its squares modulo 2^64 |
| Statistics.TotalsAreAdditive | source/common/benchmarks.c:42-43 | the two folds are additive over histories |
| Statistics.MinimumIsExactIffSomeTimeIsSmall | source/common/benchmarks.c:24-36 | the minimum field is the least measured time if and only if some time is at most the largest 32-bit int |
| Statistics.MaximumIsExact | source/common/benchmarks.c:38-40 | the maximum field is the greatest measured time |
| Statistics.FieldsBoundTheMoments | source/common/benchmarks.c:31-44 | without overflow n times minimum <= sum <= n times maximum, and the squared sum is at most n times the sum of squares |
| Statistics.SumBetween | source/common/benchmarks.c:42 | a sum of n values lies between n times a lower and n times an upper bound of them |
| Statistics.SquareOfSum | source/common/benchmarks.c:42-43 | the square of a sum of n values is at most n times the sum of their squares |
| Statistics.ComparatorSign | source/common/benchmarks.c:47-49 | the comparator orders two values correctly if and only if the low 32 bits of their difference lie in the right half |
| Statistics.ComparatorSignWhenNear | source/common/benchmarks.c:47-49 | values less than 2^31 apart are ordered correctly through 64-bit wrap and int truncation |
| Statistics.ComparatorCycles | source/common/benchmarks.c:47-49 | three values further apart are ordered in a circle |
| Statistics.AcceptedIsSorted | source/common/benchmarks.c:75-76 | whatever algorithm the library uses, an array to which the comparator does not object is sorted if the comparator has the right sign on every pair of values present |
| Statistics.NarrowIsWellOrdered | source/common/benchmarks.c:47-49 | it has on values within 2^31 of each other |
| Statistics.SortsIffWellOrdered | source/common/benchmarks.c:75-76 | for arrays of any length: every arrangement to which the comparator does not object is sorted if and only if the comparator has the right sign on every pair of values present |
| Statistics.WrongPairStays | source/common/benchmarks.c:75-76 | if it has the wrong sign on some pair, it accepts an arrangement of the whole array with that pair the wrong way round |
| Statistics.CycleIsAcceptedUnsorted | source/common/benchmarks.c:47-49 | an array of the three cyclic values is accepted although it is out of order |
| Statistics.Qsort | source/common/benchmarks.c:76 | for all inputs the array becomes a permutation of itself to which the comparator does not object |
| Statistics.SortedPermutationIsUnique | source/common/benchmarks.c:76 | every sorting algorithm yields the same sorted array |
| Statistics.MedianSplits | source/common/benchmarks.c:78-84 | the element in the middle of a sorted array, or half the sum of the two, has at most half of the values below it and at most half above it, unless the middle sum overflows |
| Statistics.CountsOfPermutation | source/common/benchmarks.c:76-84 | sorting does not change how many values are below or above |
| Statistics.Extremes | source/common/benchmarks.c:64-73 | the scan finds the least and the greatest element |
| Statistics.AnalyzeArray | source/common/benchmarks.c:64-84 | scanned minimum and maximum are exact for all inputs; the median is the middle element of the array as left by the sort, or half the 64-bit sum of the two; when the comparator has the right sign on every pair of latencies the array ends up sorted between minimum and maximum, and of the input at most half is below the median and at most half above |

## Left out

What the proofs assume of the environment:

- A poll reports readiness only where there is readiness; only the FIFO server's first poll, which looks at one descriptor, leaves the write flag arbitrary. Reporting none, or not all, is always possible.
- Channels are reliable, of any capacity of at least one byte; bytes in a channel stay readable after a close, and a write to a reader that has closed fails and raises SIGPIPE, whose handler sets the quit flag. That TCP may accept one more write after the peer's close is not modelled.
- Client and server are given the same size, rate and count, all positive (source/common/process.c:110-111); the loops also cope with other values, about which nothing is claimed.
- Latency results assume a clock that does not run backwards and whose readings fit 64 bits; the differencing of slots is modelled with 64-bit wrap-around whatever the clock does.
- Memory is sequentially consistent, as the default ordering of the atomics promises (section 7.17.3 of ISO/IEC 9899:2011).
- Termination of the echo protocol assumes that polls report all there is and that no process is left out for ever; the bound on the length of a run does not. For eventfd it has the stated condition on thefts; for the pipe it needs no fairness.

What the model does differently from the code:

- FIFO, domain and TCP share one step system; the FIFO server's two closes are one step.
- Interleavings are step systems over values; the imperative programs are tied to them by their contracts, which equate the mutable state after a call with the step function. The client and server loops of the echo protocol are also given as single sequential programs against an arbitrary environment.
- Products such as `size * rate`, `size * count` and the byte totals are unbounded integers, where the code has 64-bit ones; the counters of sent and read requests are unbounded too. `outstandingReqs`, the latency slots and the statistics wrap as in the code.
- The `int` variable `sum` of the pthread demo is unbounded; its array and intervals are arbitrary instead of the fixed ten elements.
- The created thread in ForkJoin.Adder.RecursiveAddition finishes before its creator goes on; all other interleavings are covered by the step system of the same module.
- `qsort` is replaced by an insertion sort that uses the same comparator.
- In the pipe benchmark the buffering of the C streams is not modelled beyond the flush after each write; a process that receives a signal sent to the whole group and ignores it is not modelled either.
- Message sizes of zero are not modelled for the guarded regions, the pipe and the echo protocol.

What is not modelled:

- Statistics.Qsort: an insertion sort stands for the library's; when the comparator has the wrong sign on some pair of values present, some accepted arrangement is unsorted, and which one the library produces is not modelled.
- Statistics.AnalyzeArray: its median is an exact real, where the code rounds to a double; mean and deviation are left out.
- ServerProgram.Server.Communicate: claims the order of the echo only as long as no read was made on top of unsent bytes and no write stopped short, because after that the server starts again at the beginning of its buffer (source/tcp/server.c:228, source/tcp/server.c:240).
- EchoContent.ContentInOrder: the same condition; what the server sends later is then only known to lie in its buffer.
- Books.ReportedPrefixIsFinished: is about whole-request transfers, but for a last write, because with partial ones the request counters can wrap; Latencies.HistoriesAreDated is about all transfers.
- Interrupted runs: safety of bytes, buffers and counters, and exactly when a server left alone can finish; not their completion in general. A client that stops before any request was read reports zero requests, on which `evaluateClient` (source/common/benchmarks.c:112-116) asserts.
- Set-up of sockets, FIFOs, shared memory, files and signals, processor affinity, spawning and argument parsing; the models start with a fresh guard, a fresh file, an empty queue or counter, and signal masks installed.
- The shared-memory benchmark with a mutex and condition (source/shm-sync), the signal benchmark (source/signal), the one-way eventfd, and ZeroMQ: their alternation does not hold or lives in a library.
- Means and standard deviations in floating point, and the percentile code behind a return.
- The interleaved condition-variable demo, the semaphore client and source/tcp/other.
- Graphing, aggregation and shell scripts.
