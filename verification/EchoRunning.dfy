/** Facts about uninterrupted runs of the echo protocol that hold over both kinds of transport. */
module EchoRunning {
  import opened Echo

  // ---------- what a poll result still means when it is used ----------

  ghost predicate RequestRoom(p: Config, st: State) {
    |st.request| < p.requestCapacity || st.s.phase.SDone?
  }

  ghost predicate ResponseRoom(p: Config, st: State) {
    |st.response| < p.responseCapacity || st.c.phase.CDone?
  }

  /** Each end of a channel has one user, so what a poll reported still holds when the first
      system call of a helper relies on it. */
  ghost predicate PollsHold(p: Config, st: State) {
    && (match st.c.phase
        case CPolled(canRead, canWrite) =>
          (canRead ==> st.response != [] || st.s.phase.SDone?) && (canWrite ==> RequestRoom(p, st))
        case CReading(got, asked, canWrite) =>
          && (canWrite ==> RequestRoom(p, st))
          && (got == 0 && asked > 0 ==> st.response != [] || st.s.phase.SDone?)
        case CStamping(canWrite) => canWrite ==> RequestRoom(p, st)
        case CWriting(got, asked, began) => (got == 0 ==> RequestRoom(p, st)) && asked > 0
        case _ => true)
    && (match st.s.phase
        case SPolled(canRead, canWrite) =>
          (canRead ==> st.request != [] || st.c.phase.CDone?) && (canWrite ==> ResponseRoom(p, st))
        case SReading(got, asked, canWrite) =>
          && (canWrite ==> ResponseRoom(p, st))
          && (got == 0 ==> st.request != [] || st.c.phase.CDone?)
        case SWriting(got, asked) => got == 0 ==> ResponseRoom(p, st)
        case _ => true)
  }

  /** Without interrupts a process leaves its loop only when its byte count is complete, or when it
      writes to a peer that has left. */
  ghost predicate ExitsAreEarned(p: Config, st: State) {
    && (st.s.phase.SDone? ==> st.s.totalWritten >= p.MaxBytes())
    && (st.s.quit ==> st.s.totalWritten >= p.MaxBytes())
    && (st.c.phase.CDone? ==> ServerWritten(st) >= p.MaxBytes())
    && (st.c.quit ==> st.s.phase.SDone? && (st.c.phase.CHead? || st.c.phase.CDone?))
    && (st.c.phase.CDone? ==> st.c.books.totalRead >= p.MaxBytes() || st.c.quit)
  }

  ghost predicate RunningInv(p: Config, st: State) {
    BytesInv(p, st) && !p.interruptible && PollsHold(p, st) && ExitsAreEarned(p, st)
  }

  lemma ClientControlKeepsRunning(p: Config, st: State, a: ClientAction)
    requires a.Control() && RunningInv(p, st) && ClientEnabled(p, st, a)
    ensures PollsHold(p, ClientApply(p, st, a)) && ExitsAreEarned(p, ClientApply(p, st, a))
  {}

  lemma ClientReadingKeepsRunning(p: Config, st: State, a: ClientAction)
    requires a.Reading() && RunningInv(p, st) && ClientEnabled(p, st, a)
    ensures PollsHold(p, ClientApply(p, st, a)) && ExitsAreEarned(p, ClientApply(p, st, a))
  {}

  lemma ClientWritingKeepsRunning(p: Config, st: State, a: ClientAction)
    requires a.Writing() && RunningInv(p, st) && ClientEnabled(p, st, a)
    ensures PollsHold(p, ClientApply(p, st, a)) && ExitsAreEarned(p, ClientApply(p, st, a))
  {}

  lemma ServerControlKeepsRunning(p: Config, st: State, a: ServerAction)
    requires a.Control() && RunningInv(p, st) && ServerEnabled(p, st, a)
    ensures PollsHold(p, ServerApply(p, st, a)) && ExitsAreEarned(p, ServerApply(p, st, a))
  {
    WindowBoundsServer(p, st);
  }

  lemma ServerReadingKeepsRunning(p: Config, st: State, a: ServerAction)
    requires a.Reading() && RunningInv(p, st) && ServerEnabled(p, st, a)
    ensures PollsHold(p, ServerApply(p, st, a)) && ExitsAreEarned(p, ServerApply(p, st, a))
  {}

  lemma ServerWritingKeepsRunning(p: Config, st: State, a: ServerAction)
    requires a.Writing() && RunningInv(p, st) && ServerEnabled(p, st, a)
    ensures PollsHold(p, ServerApply(p, st, a)) && ExitsAreEarned(p, ServerApply(p, st, a))
  {}

  lemma InitRunning(p: Config, st: State)
    requires p.Valid() && !p.interruptible && Init(p, st)
    ensures RunningInv(p, st)
  {
    InitBytes(p, st);
  }

  lemma StepKeepsRunning(p: Config, st: State, a: Action)
    requires RunningInv(p, st) && Enabled(p, st, a)
    ensures RunningInv(p, Apply(p, st, a))
  {
    StepKeepsBytes(p, st, Apply(p, st, a));
    match a {
      case ByClient(ca) =>
        if ca.Control() { ClientControlKeepsRunning(p, st, ca); }
        else if ca.Reading() { ClientReadingKeepsRunning(p, st, ca); }
        else { ClientWritingKeepsRunning(p, st, ca); }
      case ByServer(sa) =>
        if sa.Control() { ServerControlKeepsRunning(p, st, sa); }
        else if sa.Reading() { ServerReadingKeepsRunning(p, st, sa); }
        else { ServerWritingKeepsRunning(p, st, sa); }
      case _ =>
    }
  }
}
