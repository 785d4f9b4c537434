/** The bound on the server's buffer is not the server's own: exactly how much a client that ignores its
    window must send to make the same server code leave its buffer. */
module EchoOverrun {
  import opened Books
  import opened Systems
  import opened Echo
  import opened EchoProgress
  import opened EchoTheorems

  /** A server at its start, with some bytes on their way to it and a client that is still there. */
  ghost predicate Fresh(p: Config, st: State) {
    var s := st.s;
    && p.Valid() && !st.c.phase.CDone? && st.response == []
    && s.phase.SHead? && s.outstandingBytes == s.totalRead == s.totalWritten == 0
    && !s.armed && !s.overrun && !s.quit
  }

  /** What a read call on top of a full window takes at least: over blocking transports another window. */
  function Excess(p: Config): nat {
    if p.contract.NonBlocking? then 1 else p.Window()
  }

  // ---------- with more bytes than that on their way ----------

  lemma ServerTakes(p: Config, start: State, st: State, a: ServerAction) returns (st': State)
    requires Reachable(ServerAlone(p, start), st) && ServerEnabled(p, st, a)
    ensures Reachable(ServerAlone(p, start), st') && st' == ServerApply(p, st, a)
  {
    st' := ServerApply(p, st, a);
    ReachableStep(ServerAlone(p, start), st, st');
  }

  /** What the server asks for when it holds some bytes already. */
  function Asked(p: Config, outstanding: nat): nat {
    if outstanding > p.Window() then outstanding else p.Window()
  }

  /** A server inside a read call. */
  ghost predicate Reads(p: Config, start: State, st: State, outstanding: nat, got: nat, canWrite: bool, left: nat) {
    && Reachable(ServerAlone(p, start), st) && !st.c.phase.CDone? && st.response == []
    && st.s.phase == SReading(got, Asked(p, outstanding), canWrite) && got <= Asked(p, outstanding) && !st.s.quit
    && st.s.outstandingBytes == outstanding && st.s.totalWritten == 0
    && |st.request| == left
    && (got > p.Window() ==> st.s.overrun)
  }

  lemma {:induction false} ReadsOn(p: Config, start: State, st: State, outstanding: nat, got: nat, canWrite: bool,
                                   left: nat, n: nat) returns (st': State)
    requires p.Valid() && Reads(p, start, st, outstanding, got, canWrite, left)
    requires n <= left && got + n <= Asked(p, outstanding)
    ensures Reads(p, start, st', outstanding, got + n, canWrite, left - n)
  {
    if n == 0 {
      st' := st;
    } else {
      st' := ReadsOn(p, start, st, outstanding, got, canWrite, left, n - 1);
      st' := ServerTakes(p, start, st', ServerReads(1));
    }
  }

  lemma StartsReading(p: Config, start: State, st: State, canWrite: bool) returns (st': State)
    requires p.Valid() && Reachable(ServerAlone(p, start), st) && !st.c.phase.CDone? && st.response == []
    requires st.s.phase.SHead? && !st.s.quit && st.s.totalWritten == 0 && 0 <= st.s.outstandingBytes
    requires st.request != []
    ensures Reads(p, start, st', st.s.outstandingBytes, 0, canWrite, |st.request|)
  {
    st' := ServerTakes(p, start, st, ServerPoll(true, canWrite));
    st' := ServerTakes(p, start, st', ServerDispatch(false));
  }

  /** The server fills its buffer without sending anything back. */
  lemma FillsBuffer(p: Config, start: State) returns (st: State)
    requires Fresh(p, start) && |start.request| > p.Window()
    ensures Reachable(ServerAlone(p, start), st) && !st.c.phase.CDone? && st.response == []
    ensures st.s.phase.SHead? && !st.s.quit && st.s.totalWritten == 0 && st.s.outstandingBytes == p.Window()
    ensures |st.request| == |start.request| - p.Window()
  {
    Started(ServerAlone(p, start), start);
    st := StartsReading(p, start, start, false);
    st := ReadsOn(p, start, st, 0, 0, false, |start.request|, p.Window());
    st := ServerTakes(p, start, st, ServerReadReturns);
  }

  /** And reads on top of it. */
  lemma Overfills(p: Config, start: State, canWrite: bool) returns (st: State)
    requires Fresh(p, start) && |start.request| >= p.Window() + Excess(p)
    ensures Reachable(ServerAlone(p, start), st) && !st.c.phase.CDone? && st.response == [] && !st.s.quit
    ensures st.s.phase == if canWrite then SWriting(0, p.Window() + Excess(p)) else SHead
    ensures st.s.outstandingBytes == p.Window() + Excess(p) && st.s.totalWritten == 0
    ensures |st.request| == |start.request| - p.Window() - Excess(p)
  {
    st := FillsBuffer(p, start);
    var left := |st.request|;
    st := StartsReading(p, start, st, canWrite);
    st := ReadsOn(p, start, st, p.Window(), 0, canWrite, left, Excess(p));
    st := ServerTakes(p, start, st, ServerReadReturns);
  }

  /** With more than a window unsent the server asks for more than its buffer holds. */
  lemma ReadsPastItsBuffer(p: Config, start: State) returns (st: State)
    requires Fresh(p, start) && |start.request| > 2 * p.Window() + Excess(p)
    ensures Reachable(ServerAlone(p, start), st) && st.s.overrun
  {
    st := Overfills(p, start, false);
    var left := |st.request|;
    st := StartsReading(p, start, st, false);
    st := ReadsOn(p, start, st, p.Window() + Excess(p), 0, false, left, p.Window() + 1);
  }

  lemma {:induction false} WritesOn(p: Config, start: State, st: State, n: nat) returns (st': State)
    requires p.Valid() && Reachable(ServerAlone(p, start), st) && !st.c.phase.CDone? && st.response == []
    requires st.s.phase.SWriting? && st.s.phase.got == 0 && n <= st.s.phase.asked && n <= p.responseCapacity
    ensures Reachable(ServerAlone(p, start), st') && !st'.c.phase.CDone? && |st'.response| == n
    ensures st'.s.phase == SWriting(n, st.s.phase.asked) && (n > p.Window() ==> st'.s.overrun)
  {
    if n == 0 {
      st' := st;
    } else {
      st' := WritesOn(p, start, st, n - 1);
      st' := ServerTakes(p, start, st', ServerWrites(1));
    }
  }

  // ---------- with fewer ----------

  /** The server has at most one window, over blocking transports nothing or all of it. */
  ghost predicate WithinWindow(p: Config, total: nat, st: State) {
    var s := st.s;
    && !st.c.phase.CDone? && !s.quit && !s.overrun
    && 0 <= s.outstandingBytes == s.totalRead - s.totalWritten && 0 <= s.totalWritten
    && s.totalRead + (if s.phase.SReading? then s.phase.got else 0) + |st.request| == total
    && s.outstandingBytes <= p.Window()
    && (p.contract.Blocking? ==> s.outstandingBytes == 0 || s.outstandingBytes == p.Window())
    && (s.phase.SReading? ==> s.phase.got <= s.phase.asked == p.Window())
    && (s.phase.SWriting? ==> s.phase.got <= s.phase.asked == s.outstandingBytes)
  }

  lemma StaysWithinWindow(p: Config, total: nat, st: State, a: ServerAction)
    requires p.Valid() && total < p.Window() + Excess(p) && WithinWindow(p, total, st) && ServerEnabled(p, st, a)
    ensures WithinWindow(p, total, ServerApply(p, st, a))
  {}

  /** As long as the response channel is no larger than the buffer, writes stay inside it; the server may
      hold more than a window, but there is not enough on the way for a read to leave the buffer. */
  ghost predicate WithinReach(p: Config, total: nat, st: State) {
    var s := st.s;
    && !st.c.phase.CDone? && !s.quit && !s.overrun && |st.response| <= p.responseCapacity
    && 0 <= s.outstandingBytes == s.totalRead - s.totalWritten && 0 <= s.totalWritten
    && s.totalRead + (if s.phase.SReading? then s.phase.got else 0) + |st.request| == total
    && (p.contract.Blocking? ==> s.outstandingBytes in {0, p.Window(), 2 * p.Window()})
    && (s.phase.SReading? ==> s.phase.got <= s.phase.asked == Asked(p, s.outstandingBytes))
    && (s.phase.SWriting? ==> s.phase.got <= s.phase.asked == s.outstandingBytes && s.phase.got <= |st.response|)
  }

  lemma StaysWithinReach(p: Config, total: nat, st: State, a: ServerAction)
    requires p.Valid() && p.responseCapacity <= p.Window() && total <= 2 * p.Window() + Excess(p)
    requires WithinReach(p, total, st) && ServerEnabled(p, st, a)
    ensures WithinReach(p, total, ServerApply(p, st, a))
  {}

  // ---------- the exact bound ----------

  /** Enough bytes to overfill the buffer, and then a response channel that takes more than the buffer holds
      or enough bytes for an enlarged read. */
  predicate Floods(p: Config, total: nat) {
    && total >= p.Window() + Excess(p)
    && (p.responseCapacity > p.Window() || total > 2 * p.Window() + Excess(p))
  }

  lemma FloodedServerOverruns(p: Config, start: State) returns (st: State)
    requires Fresh(p, start) && Floods(p, |start.request|)
    ensures Reachable(ServerAlone(p, start), st) && st.s.overrun
  {
    if p.responseCapacity > p.Window() {
      st := Overfills(p, start, true);
      st := WritesOn(p, start, st, p.Window() + 1);
    } else {
      st := ReadsPastItsBuffer(p, start);
    }
  }

  lemma UnfloodedServerStaysInside(p: Config, start: State, st: State)
    requires Fresh(p, start) && !Floods(p, |start.request|) && Reachable(ServerAlone(p, start), st)
    ensures !st.s.overrun
  {
    var total := |start.request|;
    var few := total < p.Window() + Excess(p);
    var sys := ServerAlone(p, start).(
      inv := (st: State) => if few then WithinWindow(p, total, st) else WithinReach(p, total, st));
    forall st, st' | sys.inv(st) && sys.next(st, st') ensures sys.inv(st') {
      var a :| ServerEnabled(p, st, a) && st' == ServerApply(p, st, a);
      if few { StaysWithinWindow(p, total, st, a); } else { StaysWithinReach(p, total, st, a); }
    }
    SameReachable(ServerAlone(p, start), sys, st);
    InvariantWhereverReachable(sys, st);
  }

  /** For every configuration: a server left alone with some bytes on their way can leave its buffer if and
      only if they flood it. */
  lemma OverrunsIffFlooded(p: Config, start: State)
    requires Fresh(p, start)
    ensures (exists st :: Reachable(ServerAlone(p, start), st) && st.s.overrun) <==> Floods(p, |start.request|)
  {
    if Floods(p, |start.request|) {
      var st := FloodedServerOverruns(p, start);
    } else {
      forall st | Reachable(ServerAlone(p, start), st) ensures !st.s.overrun {
        UnfloodedServerStaysInside(p, start, st);
      }
    }
  }
}
