/** The fork-join summation of the pthread demo: threads split an interval recursively, add array
    elements to one shared sum under a mutex, and are joined. Any thread may take the next step;
    loading and storing the sum are separate steps. */
module ForkJoin {
  import opened Systems

  /** Where a thread is inside one pass of its loop. */
  datatype Phase = Idle | Locked | Loaded(register: int) | Stored

  /** A call that has just begun, a call adding its interval, a call that has created a thread for the
      left half (`child`) and works on the right half itself (`own`), and a call that has returned. */
  datatype Thread =
    | Call(first: int, last: int)
    | Adding(first: int, last: int, phase: Phase)
    | Forked(child: Thread, own: Thread)
    | Returned
  {
    function FirstIndex(): int {
      if Call? || Adding? then first else 0
    }
  }

  datatype State = State(sum: int, locked: bool, added: seq<int>, thread: Thread)

  function At(a: seq<int>, i: int): int {
    if 0 <= i < |a| then a[i] else 0
  }

  function Mid(first: int, last: int): int {
    first + (last - first) / 2
  }

  // ---------- one step of the thread at the end of a path: true leads to the child ----------

  predicate CanStep(t: Thread, locked: bool, path: seq<bool>) {
    match t
    case Call(_, _) => path == []
    case Adding(first, last, phase) => path == [] && (phase.Idle? && first < last ==> !locked)
    case Forked(child, own) =>
      if path == [] then child.Returned? && own.Returned?
      else if path[0] then CanStep(child, locked, path[1..]) else CanStep(own, locked, path[1..])
    case Returned => false
  }

  /** The thread after its step, given the shared sum it may load. */
  function StepThread(t: Thread, sum: int, path: seq<bool>): Thread {
    match t
    case Call(first, last) =>
      if last - first <= 2 then Adding(first, last, Idle)
      else Forked(Call(first, Mid(first, last)), Call(Mid(first, last), last))
    case Adding(first, last, Idle) => if first < last then Adding(first, last, Locked) else Returned
    case Adding(first, last, Locked) => Adding(first, last, Loaded(sum))
    case Adding(first, last, Loaded(_)) => Adding(first, last, Stored)
    case Adding(first, last, Stored) => Adding(first + 1, last, Idle)
    case Forked(child, own) =>
      if path == [] then Returned
      else if path[0] then Forked(StepThread(child, sum, path[1..]), own)
      else Forked(child, StepThread(own, sum, path[1..]))
    case Returned => t
  }

  /** The thread that takes the step. */
  function Actor(t: Thread, path: seq<bool>): Thread {
    if path == [] || !t.Forked? then t
    else if path[0] then Actor(t.child, path[1..]) else Actor(t.own, path[1..])
  }

  function StepAt(a: seq<int>, s: State, path: seq<bool>): State {
    var t' := StepThread(s.thread, s.sum, path);
    match Actor(s.thread, path)
    case Adding(first, last, Idle) => s.(thread := t', locked := s.locked || first < last)
    case Adding(first, _, Loaded(register)) =>
      s.(thread := t', sum := register + At(a, first), added := s.added + [first])
    case Adding(_, _, Stored) => s.(thread := t', locked := false)
    case _ => s.(thread := t')
  }

  ghost predicate Next(a: seq<int>, s: State, s': State) {
    exists path :: CanStep(s.thread, s.locked, path) && s' == StepAt(a, s, path)
  }

  // ---------- what is conserved ----------

  function SumOf(a: seq<int>, first: int, last: int): int
    decreases last - first
  {
    if first >= last then 0 else At(a, first) + SumOf(a, first + 1, last)
  }

  /** The sum of a sequence, from its end. */
  function Sum(s: seq<int>): int {
    if s == [] then 0 else Sum(s[..|s| - 1]) + s[|s| - 1]
  }

  /** Inside the array the sum of an interval is the sum of that part of the array. */
  lemma {:induction false} SumOfIsSum(a: seq<int>, first: int, last: int)
    requires 0 <= first <= last <= |a|
    ensures SumOf(a, first, last) == Sum(a[first..last])
    decreases last - first
  {
    if first < last {
      SumOfIsSum(a, first, last - 1);
      SplitSum(a, first, last - 1, last);
      var part := a[first..last];
      assert part[..|part| - 1] == a[first..last - 1] && part[|part| - 1] == a[last - 1];
    }
  }

  /** The sum of all unfinished subintervals. */
  function ToAdd(a: seq<int>, t: Thread): int {
    match t
    case Call(first, last) => SumOf(a, first, last)
    case Adding(first, last, phase) => SumOf(a, if phase.Stored? then first + 1 else first, last)
    case Forked(child, own) => ToAdd(a, child) + ToAdd(a, own)
    case Returned => 0
  }

  /** How often index k is still to be added. */
  function Pending(t: Thread, k: int): nat {
    match t
    case Call(first, last) => if first <= k < last then 1 else 0
    case Adding(first, last, phase) => if (if phase.Stored? then first + 1 else first) <= k < last then 1 else 0
    case Forked(child, own) => Pending(child, k) + Pending(own, k)
    case Returned => 0
  }

  /** How often index k has been added. */
  function Times(added: seq<int>, k: int): nat {
    if added == [] then 0
    else Times(added[..|added| - 1], k) + (if added[|added| - 1] == k then 1 else 0)
  }

  /** The number of threads between lock and unlock. */
  function Holders(t: Thread): nat {
    match t
    case Adding(_, _, phase) => if phase.Idle? then 0 else 1
    case Forked(child, own) => Holders(child) + Holders(own)
    case _ => 0
  }

  /** Whoever has loaded the sum still holds its current value, and only adds what is to be added. */
  ghost predicate Sound(t: Thread, sum: int) {
    match t
    case Adding(first, last, phase) => !phase.Idle? ==> first < last && (phase.Loaded? ==> phase.register == sum)
    case Forked(child, own) => Sound(child, sum) && Sound(own, sum)
    case _ => true
  }

  function StepsDone(phase: Phase): nat {
    match phase
    case Idle => 0
    case Locked => 1
    case Loaded(_) => 2
    case Stored => 3
  }

  /** Steps to go; every step of any thread lowers it. */
  function Fuel(t: Thread): nat {
    match t
    case Call(first, last) => if first >= last then 2 else 8 * (last - first) - 2
    case Adding(first, last, phase) =>
      var left := if first >= last then 1 else 4 * (last - first) + 1;
      if left < StepsDone(phase) then 0 else left - StepsDone(phase)
    case Forked(child, own) => 1 + Fuel(child) + Fuel(own)
    case Returned => 0
  }

  lemma {:induction false} SplitSum(a: seq<int>, first: int, mid: int, last: int)
    requires first <= mid <= last
    ensures SumOf(a, first, last) == SumOf(a, first, mid) + SumOf(a, mid, last)
    decreases mid - first
  {
    if first < mid { SplitSum(a, first + 1, mid, last); }
  }

  lemma {:induction false} NobodyLoaded(t: Thread, sum: int, sum': int)
    requires Holders(t) == 0 && Sound(t, sum)
    ensures Sound(t, sum')
  {
    if t.Forked? { NobodyLoaded(t.child, sum, sum'); NobodyLoaded(t.own, sum, sum'); }
  }

  /** What the acting thread adds to the sum, which index that is, and how it changes the mutex. */
  function Gain(a: seq<int>, actor: Thread): int {
    if actor.Adding? && actor.phase.Loaded? then At(a, actor.first) else 0
  }

  function Taken(actor: Thread, k: int): nat {
    if actor.Adding? && actor.phase.Loaded? && actor.first == k then 1 else 0
  }

  function Acquired(actor: Thread): int {
    if !actor.Adding? then 0
    else if actor.phase.Idle? then (if actor.first < actor.last then 1 else 0)
    else if actor.phase.Stored? then -1 else 0
  }

  /** What one thread's step does to the tree it is part of. */
  ghost predicate StepEffect(a: seq<int>, t: Thread, t': Thread, actor: Thread, sum: int, locked: bool) {
    && ToAdd(a, t) == ToAdd(a, t') + Gain(a, actor)
    && (forall k :: Pending(t, k) == Pending(t', k) + Taken(actor, k))
    && Holders(t') == Holders(t) + Acquired(actor)
    && (Acquired(actor) == 1 ==> !locked)
    && (actor.Adding? && !actor.phase.Idle? ==> Holders(t) >= 1)
    && (if actor.Adding? && actor.phase.Loaded? then
          actor.phase.register == sum && (Holders(t) == 1 ==> Sound(t', sum + Gain(a, actor)))
        else Sound(t', sum))
  }

  lemma CallHasEffect(a: seq<int>, t: Thread, locked: bool, sum: int)
    requires t.Call?
    ensures StepEffect(a, t, StepThread(t, sum, []), t, sum, locked)
  {
    if t.last - t.first > 2 {
      SplitSum(a, t.first, Mid(t.first, t.last), t.last);
    }
  }

  lemma AddingHasEffect(a: seq<int>, t: Thread, locked: bool, sum: int)
    requires t.Adding? && CanStep(t, locked, []) && Sound(t, sum)
    ensures StepEffect(a, t, StepThread(t, sum, []), t, sum, locked)
  {}

  lemma ChildHasEffect(a: seq<int>, t: Thread, locked: bool, sum: int, child': Thread, actor: Thread)
    requires t.Forked? && Sound(t, sum) && StepEffect(a, t.child, child', actor, sum, locked)
    ensures StepEffect(a, t, Forked(child', t.own), actor, sum, locked)
  {
    if Holders(t.own) == 0 { NobodyLoaded(t.own, sum, sum + Gain(a, actor)); }
  }

  lemma OwnHasEffect(a: seq<int>, t: Thread, locked: bool, sum: int, own': Thread, actor: Thread)
    requires t.Forked? && Sound(t, sum) && StepEffect(a, t.own, own', actor, sum, locked)
    ensures StepEffect(a, t, Forked(t.child, own'), actor, sum, locked)
  {
    if Holders(t.child) == 0 { NobodyLoaded(t.child, sum, sum + Gain(a, actor)); }
  }

  lemma {:induction false} StepHasEffect(a: seq<int>, t: Thread, locked: bool, sum: int, path: seq<bool>)
    requires CanStep(t, locked, path) && Sound(t, sum)
    ensures StepEffect(a, t, StepThread(t, sum, path), Actor(t, path), sum, locked)
  {
    match t {
      case Call(_, _) => CallHasEffect(a, t, locked, sum);
      case Adding(_, _, _) => AddingHasEffect(a, t, locked, sum);
      case Forked(child, own) =>
        if path != [] && path[0] {
          StepHasEffect(a, child, locked, sum, path[1..]);
          ChildHasEffect(a, t, locked, sum, StepThread(child, sum, path[1..]), Actor(child, path[1..]));
        } else if path != [] {
          StepHasEffect(a, own, locked, sum, path[1..]);
          OwnHasEffect(a, t, locked, sum, StepThread(own, sum, path[1..]), Actor(own, path[1..]));
        }
      case Returned =>
    }
  }

  lemma {:induction false} FuelFalls(t: Thread, locked: bool, sum: int, path: seq<bool>)
    requires CanStep(t, locked, path) && Sound(t, sum)
    ensures Fuel(StepThread(t, sum, path)) < Fuel(t)
  {
    if t.Forked? && path != [] {
      FuelFalls(if path[0] then t.child else t.own, locked, sum, path[1..]);
    }
  }

  // ---------- every interleaving ----------

  /** A tree of calls of which none has begun an addition. */
  ghost predicate Quiet(t: Thread) {
    match t
    case Adding(_, _, phase) => phase.Idle?
    case Forked(child, own) => Quiet(child) && Quiet(own)
    case _ => true
  }

  ghost predicate Start(t: Thread, sum: int, s: State) {
    s == State(sum, false, [], t)
  }

  ghost predicate Inv(a: seq<int>, t0: Thread, sum0: int, s: State) {
    && s.sum + ToAdd(a, s.thread) == sum0 + ToAdd(a, t0)
    && (forall k :: Times(s.added, k) + Pending(s.thread, k) == Pending(t0, k))
    && Holders(s.thread) == (if s.locked then 1 else 0)
    && Sound(s.thread, s.sum)
  }

  lemma {:induction false} TimesIsMultiplicity(added: seq<int>, k: int)
    ensures Times(added, k) == multiset(added)[k]
  {
    if added != [] {
      var front, x := added[..|added| - 1], added[|added| - 1];
      TimesIsMultiplicity(front, k);
      assert added == front + [x];
    }
  }

  lemma AddedOnce(added: seq<int>, x: int, k: int)
    ensures Times(added + [x], k) == Times(added, k) + (if x == k then 1 else 0)
  {
    assert (added + [x])[..|added|] == added;
  }

  lemma StepKeepsCounts(a: seq<int>, s: State, path: seq<bool>, k: int)
    requires CanStep(s.thread, s.locked, path) && Sound(s.thread, s.sum)
    ensures
      var s' := StepAt(a, s, path);
      Times(s'.added, k) + Pending(s'.thread, k) == Times(s.added, k) + Pending(s.thread, k)
  {
    StepHasEffect(a, s.thread, s.locked, s.sum, path);
    AddedOnce(s.added, Actor(s.thread, path).FirstIndex(), k);
  }

  lemma StepKeepsSums(a: seq<int>, s: State, path: seq<bool>)
    requires CanStep(s.thread, s.locked, path) && Sound(s.thread, s.sum)
    requires Holders(s.thread) == (if s.locked then 1 else 0)
    ensures
      var s' := StepAt(a, s, path);
      && s'.sum + ToAdd(a, s'.thread) == s.sum + ToAdd(a, s.thread)
      && Holders(s'.thread) == (if s'.locked then 1 else 0)
      && Sound(s'.thread, s'.sum)
  {
    StepHasEffect(a, s.thread, s.locked, s.sum, path);
  }

  lemma StepKeepsInv(a: seq<int>, t0: Thread, sum0: int, s: State, path: seq<bool>)
    requires Inv(a, t0, sum0, s) && CanStep(s.thread, s.locked, path)
    ensures Inv(a, t0, sum0, StepAt(a, s, path))
    ensures Fuel(StepAt(a, s, path).thread) < Fuel(s.thread)
  {
    StepKeepsSums(a, s, path);
    FuelFalls(s.thread, s.locked, s.sum, path);
    var s' := StepAt(a, s, path);
    forall k ensures Times(s'.added, k) + Pending(s'.thread, k) == Pending(t0, k) { StepKeepsCounts(a, s, path, k); }
  }

  lemma {:induction false} QuietIsSound(t: Thread, sum: int)
    requires Quiet(t)
    ensures Holders(t) == 0 && Sound(t, sum)
  {
    if t.Forked? { QuietIsSound(t.child, sum); QuietIsSound(t.own, sum); }
  }

  /** Until the outermost call has returned some thread can move: the holder of the mutex if there is one. */
  lemma {:induction false} SomeThreadMoves(t: Thread, locked: bool) returns (path: seq<bool>)
    requires !t.Returned? && (locked ==> Holders(t) > 0)
    ensures CanStep(t, locked, path)
  {
    path := [];
    if t.Forked? && !(t.child.Returned? && t.own.Returned?) {
      var left := if locked then Holders(t.child) > 0 else !t.child.Returned?;
      var rest := SomeThreadMoves(if left then t.child else t.own, locked);
      path := [left] + rest;
    }
  }

  ghost function Threads(a: seq<int>, t0: Thread, sum0: int): System<State> {
    System((s: State) => Quiet(t0) && Start(t0, sum0, s), (s: State, s': State) => Next(a, s, s'),
           (s: State) => Inv(a, t0, sum0, s), (s: State) => s.thread.Returned?, (s: State) => Fuel(s.thread))
  }

  /** Every step of every interleaving lowers the measure, so every schedule ends. */
  lemma EveryStepCounts(a: seq<int>, t0: Thread, sum0: int)
    ensures Inductive(Threads(a, t0, sum0)) && Advances(Threads(a, t0, sum0))
    ensures forall s, s' :: Inv(a, t0, sum0, s) && Next(a, s, s') ==> Fuel(s'.thread) < Fuel(s.thread)
  {
    var sys := Threads(a, t0, sum0);
    forall s | sys.init(s) ensures sys.inv(s) { QuietIsSound(t0, sum0); }
    forall s, s' | Inv(a, t0, sum0, s) && Next(a, s, s') ensures sys.inv(s') && Fuel(s'.thread) < Fuel(s.thread) {
      var path :| CanStep(s.thread, s.locked, path) && s' == StepAt(a, s, path);
      StepKeepsInv(a, t0, sum0, s, path);
    }
    forall s | sys.inv(s) && !sys.done(s) ensures exists s' :: sys.next(s, s') && sys.rank(s') < sys.rank(s) {
      var path := SomeThreadMoves(s.thread, s.locked);
      StepKeepsInv(a, t0, sum0, s, path);
      assert sys.next(s, StepAt(a, s, path));
    }
  }

  /** At every moment of every interleaving the accumulated sum and the sums of all unfinished
      subintervals make up the same total, every index is still to be added or has been added, once,
      and at most one thread is between lock and unlock. */
  lemma SumIsConserved(a: seq<int>, t0: Thread, sum0: int, s: State)
    requires Reachable(Threads(a, t0, sum0), s)
    ensures s.sum + ToAdd(a, s.thread) == sum0 + ToAdd(a, t0)
    ensures forall k :: Times(s.added, k) + Pending(s.thread, k) == Pending(t0, k)
    ensures Holders(s.thread) <= 1
    ensures !s.thread.Returned? ==> exists path :: CanStep(s.thread, s.locked, path)
  {
    EveryStepCounts(a, t0, sum0);
    InvariantWhereverReachable(Threads(a, t0, sum0), s);
    if !s.thread.Returned? { var path := SomeThreadMoves(s.thread, s.locked); }
  }

  lemma AddedAsPending(a: seq<int>, t0: Thread, sum0: int, s: State, k: int)
    requires Reachable(Threads(a, t0, sum0), s) && s.thread.Returned?
    ensures multiset(s.added)[k] == Pending(t0, k)
  {
    SumIsConserved(a, t0, sum0, s);
    TimesIsMultiplicity(s.added, k);
    assert Times(s.added, k) + Pending(s.thread, k) == Pending(t0, k);
  }

  lemma NobodyHoldsAtTheEnd(a: seq<int>, t0: Thread, sum0: int, s: State)
    requires Reachable(Threads(a, t0, sum0), s) && s.thread.Returned?
    ensures !s.locked
  {
    EveryStepCounts(a, t0, sum0);
    InvariantWhereverReachable(Threads(a, t0, sum0), s);
  }

  /** When the outermost call has returned, the sum has grown by exactly the interval's sum and every
      index of the interval has been added exactly once, whatever the interleaving was. */
  lemma RecursiveAdditionIsCorrect(a: seq<int>, first: int, last: int, sum0: int, s: State)
    requires Reachable(Threads(a, Call(first, last), sum0), s) && s.thread.Returned?
    ensures s.sum == sum0 + SumOf(a, first, last)
    ensures 0 <= first <= last <= |a| ==> s.sum == sum0 + Sum(a[first..last])
    ensures last < first ==> s.sum == sum0
    ensures forall k :: multiset(s.added)[k] == if first <= k < last then 1 else 0
    ensures !s.locked
  {
    if 0 <= first <= last <= |a| { SumOfIsSum(a, first, last); }
    SumIsConserved(a, Call(first, last), sum0, s);
    NobodyHoldsAtTheEnd(a, Call(first, last), sum0, s);
    forall k ensures multiset(s.added)[k] == if first <= k < last then 1 else 0 {
      AddedAsPending(a, Call(first, last), sum0, s, k);
    }
  }

  /** The same for two threads that add the two halves of an interval and are joined. */
  lemma ParallelAddIsCorrect(a: seq<int>, first: int, mid: int, last: int, sum0: int, s: State)
    requires first <= mid <= last
    requires Reachable(Threads(a, TwoHalves(first, mid, last), sum0), s) && s.thread.Returned?
    ensures s.sum == sum0 + SumOf(a, first, last)
    ensures 0 <= first && last <= |a| ==> s.sum == sum0 + Sum(a[first..last])
    ensures forall k :: multiset(s.added)[k] == if first <= k < last then 1 else 0
  {
    if 0 <= first && last <= |a| { SumOfIsSum(a, first, last); }
    SumIsConserved(a, TwoHalves(first, mid, last), sum0, s);
    SplitSum(a, first, mid, last);
    forall k ensures multiset(s.added)[k] == if first <= k < last then 1 else 0 {
      HalvesCover(first, mid, last, k);
      AddedAsPending(a, TwoHalves(first, mid, last), sum0, s, k);
    }
  }

  function TwoHalves(first: int, mid: int, last: int): Thread {
    Forked(Adding(first, mid, Idle), Adding(mid, last, Idle))
  }

  lemma HalvesCover(first: int, mid: int, last: int, k: int)
    requires first <= mid <= last
    ensures Pending(TwoHalves(first, mid, last), k) == if first <= k < last then 1 else 0
  {}

  // ---------- one schedule as a program ----------

  class Task {
    var first: int
    var last: int

    constructor (first: int, last: int)
      ensures this.first == first && this.last == last
    {
      this.first, this.last := first, last;
    }
  }

  class Adder {
    var sum: int

    /** `recursive_addition` under the schedule that runs every created thread at once: the sum grows
        by the sum of the interval, as RecursiveAdditionIsCorrect says for every schedule. */
    method RecursiveAddition(a: array<int>, task: Task)
      requires 0 <= task.first && task.last <= a.Length
      modifies this, task
      ensures sum == old(sum) + SumOf(a[..], old(task.first), old(task.last))
      ensures old(task.first <= task.last) ==> sum == old(sum) + Sum(a[old(task.first)..old(task.last)])
      ensures task.last == old(task.last)
      ensures task.first == if 0 < task.last - old(task.first) <= 2 then task.last else old(task.first)
      decreases task.last - task.first
    {
      if task.first <= task.last { SumOfIsSum(a[..], task.first, task.last); }
      if task.last - task.first <= 2 {
        ghost var start := task.first;
        while task.first < task.last
          invariant start <= task.first && (task.first == start || task.first <= task.last)
          invariant task.last == old(task.last)
          invariant sum + SumOf(a[..], task.first, task.last) == old(sum) + SumOf(a[..], start, task.last)
        {
          sum := sum + a[task.first];
          task.first := task.first + 1;
        }
      } else {
        var left := new Task(task.first, task.first + (task.last - task.first) / 2);
        var right := new Task(left.last, task.last);
        SplitSum(a[..], left.first, left.last, task.last);
        RecursiveAddition(a, left);
        RecursiveAddition(a, right);
      }
    }
  }
}
