/** The statistics of the benchmarks: online accumulators in 64-bit fields, the comparator that goes
    through a 64-bit difference and a 32-bit int, and minimum, maximum and median of an array. */
module Statistics {
  import opened Arithmetic
  import opened Books

  const INT32_MAX: nat := 0x7FFF_FFFF
  const TWO_TO_32: nat := 0x1_0000_0000
  const TWO_TO_31: nat := 0x8000_0000

  // ---------- accumulators ----------

  function Total(history: seq<nat>): nat {
    if history == [] then 0 else Total(history[..|history| - 1]) + history[|history| - 1]
  }

  function TotalSquared(history: seq<nat>): nat {
    if history == [] then 0
    else TotalSquared(history[..|history| - 1]) + history[|history| - 1] * history[|history| - 1]
  }

  /** What the two folds are: additive, and on a single value that value and its square. */
  lemma {:induction false} TotalsAreAdditive(s: seq<nat>, t: seq<nat>)
    ensures Total(s + t) == Total(s) + Total(t) && TotalSquared(s + t) == TotalSquared(s) + TotalSquared(t)
  {
    if t == [] {
      assert s + t == s;
    } else {
      var n := |t| - 1;
      TotalsAreAdditive(s, t[..n]);
      assert (s + t)[..|s + t| - 1] == s + t[..n] && (s + t)[|s + t| - 1] == t[n];
    }
  }

  lemma TotalsOfOne(x: nat)
    ensures Total([x]) == x && TotalSquared([x]) == x * x
  {
    assert [x][..0] == [];
  }

  ghost predicate IsLeast(m: int, history: seq<nat>) {
    m in history && forall i :: 0 <= i < |history| ==> m <= history[i]
  }

  ghost predicate IsGreatest(m: int, history: seq<nat>) {
    m in history && forall i :: 0 <= i < |history| ==> history[i] <= m
  }

  ghost predicate Folds(minimum: nat, maximum: nat, sum: nat, squaredSum: nat, history: seq<nat>) {
    Bounds(minimum, maximum, history) && Sums(sum, squaredSum, history)
  }

  ghost predicate Bounds(minimum: nat, maximum: nat, history: seq<nat>) {
    IsLeast(minimum, history + [INT32_MAX]) && IsGreatest(maximum, history + [0])
  }

  ghost predicate Sums(sum: nat, squaredSum: nat, history: seq<nat>) {
    sum == Wrap64(Total(history)) && squaredSum == Wrap64(TotalSquared(history))
  }

  class Benchmarks {
    var totalStart: nat
    var singleStart: nat
    var minimum: nat
    var maximum: nat
    var sum: nat
    var squaredSum: nat
    ghost var history: seq<nat>

    /** The fields are the folds of the measured times, as far as 64 bits hold them; the minimum
        starts at the largest 32-bit int and the maximum at zero. */
    ghost predicate Valid()
      reads this
    {
      Folds(minimum, maximum, sum, squaredSum, history)
    }

    method Setup(now: nat)
      modifies `totalStart, `minimum, `maximum, `sum, `squaredSum, `history
      ensures Valid() && history == [] && totalStart == now
    {
      minimum := INT32_MAX;
      maximum := 0;
      sum := 0;
      squaredSum := 0;
      totalStart := now;
      history := [];
    }

    method Benchmark(now: nat)
      requires Valid()
      modifies `minimum, `maximum, `sum, `squaredSum, `history
      ensures Valid() && history == old(history) + [Wrap64(now - singleStart)]
    {
      var time := Wrap64(now - singleStart);
      AddToBounds(time);
      AddToSums(time);
    }

    /** The two comparisons of `benchmark`. */
    method AddToBounds(time: nat)
      requires Bounds(minimum, maximum, history)
      modifies `minimum, `maximum
      ensures Bounds(minimum, maximum, history + [time])
    {
      BoundsOfMore(minimum, maximum, history, time);
      if time < minimum { minimum := time; }
      if time > maximum { maximum := time; }
    }

    /** Its last two statements. */
    method AddToSums(time: nat)
      requires Bounds(minimum, maximum, history + [time]) && Sums(sum, squaredSum, history)
      modifies `sum, `squaredSum, `history
      ensures Valid() && history == old(history) + [time]
    {
      SumsOfMore(history, time);
      sum := Wrap64(sum + time);
      // that the product wraps as well makes no difference modulo 2^64
      squaredSum := Wrap64(squaredSum + time * time);
      history := history + [time];
    }
  }

  lemma BoundsOfMore(minimum: nat, maximum: nat, history: seq<nat>, time: nat)
    requires Bounds(minimum, maximum, history)
    ensures Bounds(if time < minimum then time else minimum, if time > maximum then time else maximum, history + [time])
  {
    LeastOfMore(minimum, history, time, INT32_MAX);
    GreatestOfMore(maximum, history, time, 0);
  }

  lemma SumsOfMore(history: seq<nat>, time: nat)
    ensures Wrap64(Wrap64(Total(history)) + time) == Wrap64(Total(history + [time]))
    ensures Wrap64(Wrap64(TotalSquared(history)) + time * time) == Wrap64(TotalSquared(history + [time]))
  {
    var more, square := history + [time], time * time;
    assert more[..|more| - 1] == history;
    WrapAgain(Total(history), time);
    WrapAgain(TotalSquared(history), square);
    assert TotalSquared(more) == TotalSquared(history) + square;
  }

  lemma LeastOfMore(m: int, history: seq<nat>, time: nat, start: nat)
    requires IsLeast(m, history + [start])
    ensures IsLeast(if time < m then time else m, history + [time] + [start])
  {
    var more := history + [time] + [start];
    assert more[|history|] == time && more[|history| + 1] == start;
    forall i | 0 <= i < |more| ensures (if time < m then time else m) <= more[i] {
      if i < |history| { assert more[i] == (history + [start])[i]; }
      assert (history + [start])[|history|] == start;
    }
    var j :| 0 <= j < |history + [start]| && (history + [start])[j] == m;
    if j < |history| { assert more[j] == m; }
  }

  lemma GreatestOfMore(m: int, history: seq<nat>, time: nat, start: nat)
    requires IsGreatest(m, history + [start])
    ensures IsGreatest(if time > m then time else m, history + [time] + [start])
  {
    var more := history + [time] + [start];
    assert more[|history|] == time && more[|history| + 1] == start;
    forall i | 0 <= i < |more| ensures more[i] <= (if time > m then time else m) {
      if i < |history| { assert more[i] == (history + [start])[i]; }
      assert (history + [start])[|history|] == start;
    }
    var j :| 0 <= j < |history + [start]| && (history + [start])[j] == m;
    if j < |history| { assert more[j] == m; }
  }

  /** The minimum field is the least measured time exactly when some time fits a 32-bit int. */
  lemma MinimumIsExactIffSomeTimeIsSmall(m: int, history: seq<nat>)
    requires |history| > 0 && IsLeast(m, history + [INT32_MAX])
    ensures IsLeast(m, history) <==> exists i :: 0 <= i < |history| && history[i] <= INT32_MAX
  {
    var all := history + [INT32_MAX];
    assert all[|history|] == INT32_MAX;
    assert forall i :: 0 <= i < |history| ==> all[i] == history[i];
    var j :| 0 <= j < |all| && all[j] == m;
    if exists i :: 0 <= i < |history| && history[i] <= INT32_MAX {
      var i :| 0 <= i < |history| && history[i] <= INT32_MAX;
      assert all[i] == history[i];
    }
  }

  /** The maximum field always is the greatest measured time. */
  lemma MaximumIsExact(m: int, history: seq<nat>)
    requires |history| > 0 && IsGreatest(m, history + [0])
    ensures IsGreatest(m, history)
  {
    var all := history + [0];
    assert forall i :: 0 <= i < |history| ==> all[i] == history[i];
    var j :| 0 <= j < |all| && all[j] == m;
    assert all[0] == history[0];
  }

  lemma OneMore(n: nat, x: int)
    ensures (n + 1) * x == n * x + x
  {}

  /** Without overflow: the sum lies between n times the minimum and n times the maximum. */
  lemma {:induction false} SumBetween(history: seq<nat>, low: int, high: int)
    requires forall i :: 0 <= i < |history| ==> low <= history[i] <= high
    ensures |history| * low <= Total(history) <= |history| * high
  {
    if history != [] {
      var front := history[..|history| - 1];
      SumBetween(front, low, high);
      OneMore(|front|, low);
      OneMore(|front|, high);
      assert |history| == |front| + 1;
    }
  }

  /** n x^2 - 2 x S + Q is the sum of the squares (x - h)^2. */
  lemma {:induction false} SquaresAround(history: seq<nat>, x: int)
    ensures |history| * (x * x) - 2 * (x * Total(history)) + TotalSquared(history) >= 0
  {
    if history != [] {
      var front, h := history[..|history| - 1], history[|history| - 1];
      SquaresAround(front, x);
      Distribute(x * x, |front|, 1);
      Distribute(x, Total(front), h);
      Square(x, h);
    }
  }

  lemma Square(x: int, h: int)
    ensures x * x - 2 * (x * h) + h * h >= 0
  {
    var d := x - h;
    assert d * d == x * x - 2 * (x * h) + h * h;
    if d >= 0 { assert d * d >= 0; } else { assert d * d == (-d) * (-d); assert (-d) * (-d) >= 0; }
  }

  /** Without overflow: the square of the sum is at most n times the sum of the squares, so the
      variance the two fields determine is not negative. */
  lemma {:induction false} SquareOfSum(history: seq<nat>)
    ensures Total(history) * Total(history) <= |history| * TotalSquared(history)
  {
    if history != [] {
      var front, h := history[..|history| - 1], history[|history| - 1];
      SquareOfSum(front);
      SquaresAround(front, h);
      var s, q, n, hh := Total(front), TotalSquared(front), |front|, h * h;
      SquareOfMore(s, h);
      assert (n + 1) * (q + hh) == n * q + n * hh + q + hh;
    }
  }

  lemma SquareOfMore(s: int, h: int)
    ensures (s + h) * (s + h) == s * s + 2 * (h * s) + h * h
  {}

  /** What the fields say after n >= 1 measurements, as long as neither 64-bit sum has overflowed. */
  lemma FieldsBoundTheMoments(b: Benchmarks)
    requires b.Valid() && |b.history| > 0
    requires Total(b.history) < TWO_TO_64 && TotalSquared(b.history) < TWO_TO_64
    ensures |b.history| * b.minimum <= b.sum <= |b.history| * b.maximum
    ensures b.sum * b.sum <= |b.history| * b.squaredSum
  {
    MaximumIsExact(b.maximum, b.history);
    assert forall i :: 0 <= i < |b.history| ==> (b.history + [INT32_MAX])[i] == b.history[i];
    SumBetween(b.history, b.minimum, b.maximum);
    SquareOfSum(b.history);
  }

  // ---------- the comparator ----------

  /** The int that the low 32 bits of a value denote. */
  function Int32(x: nat): int {
    var low := x % TWO_TO_32;
    if low >= TWO_TO_31 then low - TWO_TO_32 else low
  }

  function CompareULLongs(a: nat, b: nat): int {
    Int32(Wrap64(a - b))
  }

  lemma LowBits(d: int)
    ensures Wrap64(d) % TWO_TO_32 == d % TWO_TO_32
  {
    var q := d / TWO_TO_64;
    assert d == q * TWO_TO_64 + Wrap64(d);
    assert d == (q * TWO_TO_32) * TWO_TO_32 + Wrap64(d);
  }

  /** The comparator has the sign of a - b exactly when the low 32 bits of the difference lie in the
      half that stands for that sign. */
  lemma ComparatorSign(a: nat, b: nat)
    ensures (CompareULLongs(a, b) > 0 <==> a > b) && (CompareULLongs(a, b) == 0 <==> a == b)
       <==> (var low := (a - b) % TWO_TO_32;
             if a > b then 0 < low < TWO_TO_31 else if a == b then low == 0 else low >= TWO_TO_31)
  {
    LowBits(a - b);
  }

  /** Less than 2^31 apart is near enough. */
  lemma ComparatorSignWhenNear(a: nat, b: nat)
    requires a < b + TWO_TO_31 && b < a + TWO_TO_31
    ensures CompareULLongs(a, b) > 0 <==> a > b
    ensures CompareULLongs(a, b) == 0 <==> a == b
  {
    LowBits(a - b);
  }

  /** The comparator never calls each of two values the greater one. */
  lemma ComparatorAntisymmetric(a: nat, b: nat)
    requires CompareULLongs(a, b) > 0
    ensures CompareULLongs(b, a) < 0
  {
    var d := a - b;
    var low := d % TWO_TO_32;
    LowBits(d);
    LowBits(-d);
    assert (-d) % TWO_TO_32 == TWO_TO_32 - low by {
      ModUnique(-d, TWO_TO_32, -(d / TWO_TO_32) - 1, TWO_TO_32 - low);
    }
  }

  lemma ComparatorIsAntisymmetric()
    ensures Antisymmetric(CompareULLongs)
  {
    forall x, y | CompareULLongs(x, y) > 0 ensures CompareULLongs(y, x) <= 0 { ComparatorAntisymmetric(x, y); }
  }

  /** Further apart the comparator is not even an order. */
  lemma ComparatorCycles()
    ensures CompareULLongs(0, 0x7FFF_FFFF) < 0 && CompareULLongs(0x7FFF_FFFF, 0xFFFF_FFFE) < 0
    ensures CompareULLongs(0xFFFF_FFFE, 0) < 0
  {
    LowBits(0 - 0x7FFF_FFFF);
    LowBits(0x7FFF_FFFF - 0xFFFF_FFFE);
  }

  // ---------- minimum, maximum, median ----------

  ghost predicate Sorted(s: seq<nat>) {
    forall i, j :: 0 <= i < j < |s| ==> s[i] <= s[j]
  }

  /** A comparator objects to no two neighbours. */
  ghost predicate Accepted(compare: (nat, nat) -> int, s: seq<nat>) {
    forall i, j :: 0 <= i < |s| && 0 <= j < |s| && j == i + 1 ==> compare(s[i], s[j]) <= 0
  }

  /** A comparator sees the greater of any two values present as the greater one. */
  ghost predicate WellOrdered(compare: (nat, nat) -> int, s: seq<nat>) {
    forall x, y :: x in s && y in s && x < y ==> compare(y, x) > 0
  }

  ghost predicate Antisymmetric(compare: (nat, nat) -> int) {
    forall x, y :: compare(x, y) > 0 ==> compare(y, x) <= 0
  }

  lemma NarrowIsWellOrdered(s: seq<nat>, low: int)
    requires forall i :: 0 <= i < |s| ==> low <= s[i] < low + TWO_TO_31
    ensures WellOrdered(CompareULLongs, s)
  {
    forall x, y | x in s && y in s && x < y ensures CompareULLongs(y, x) > 0 { ComparatorSignWhenNear(y, x); }
  }

  lemma {:induction false} InOrder(compare: (nat, nat) -> int, s: seq<nat>, i: nat, j: nat)
    requires WellOrdered(compare, s) && Accepted(compare, s) && i < j < |s|
    ensures s[i] <= s[j]
  {
    var k := j - 1;
    if i < k { InOrder(compare, s, i, k); }
    assert compare(s[k], s[j]) <= 0;
    assert s[k] in s && s[j] in s;
  }

  /** Whatever sorting algorithm the library uses: an arrangement to which the comparator does not object
      is sorted if the comparator has the right sign on every pair of values present. */
  lemma AcceptedIsSorted(compare: (nat, nat) -> int, s: seq<nat>)
    requires WellOrdered(compare, s) && Accepted(compare, s)
    ensures Sorted(s)
  {
    forall i, j | 0 <= i < j < |s| ensures s[i] <= s[j] { InOrder(compare, s, i, j); }
  }

  /** One value occurs somewhere before another. */
  ghost predicate Before(s: seq<nat>, first: nat, second: nat) {
    exists i, j :: 0 <= i < j < |s| && s[i] == first && s[j] == second
  }

  /** Where an element ends up that moves down while the comparator objects. */
  function Inserted(compare: (nat, nat) -> int, s: seq<nat>, z: nat): seq<nat> {
    if s == [] || compare(s[|s| - 1], z) <= 0 then s + [z]
    else Inserted(compare, s[..|s| - 1], z) + [s[|s| - 1]]
  }

  lemma AcceptedMore(compare: (nat, nat) -> int, s: seq<nat>, z: nat)
    requires Accepted(compare, s) && (s == [] || compare(s[|s| - 1], z) <= 0)
    ensures Accepted(compare, s + [z])
  {}

  lemma {:induction false} InsertionIsAccepted(compare: (nat, nat) -> int, s: seq<nat>, z: nat)
    requires Accepted(compare, s) && Antisymmetric(compare)
    ensures Accepted(compare, Inserted(compare, s, z)) && |Inserted(compare, s, z)| == |s| + 1
    ensures Inserted(compare, s, z)[|s|] == z || (s != [] && Inserted(compare, s, z)[|s|] == s[|s| - 1])
  {
    if s == [] || compare(s[|s| - 1], z) <= 0 {
      AcceptedMore(compare, s, z);
    } else {
      var front, last := s[..|s| - 1], s[|s| - 1];
      InsertionIsAccepted(compare, front, z);
      if front != [] { assert compare(s[|s| - 2], s[|s| - 1]) <= 0; }
      AcceptedMore(compare, Inserted(compare, front, z), last);
    }
  }

  lemma {:induction false} InsertionAdds(compare: (nat, nat) -> int, s: seq<nat>, z: nat)
    ensures multiset(Inserted(compare, s, z)) == multiset(s) + multiset{z}
  {
    if s != [] && compare(s[|s| - 1], z) > 0 {
      InsertionAdds(compare, s[..|s| - 1], z);
      assert s == s[..|s| - 1] + [s[|s| - 1]];
    }
  }

  lemma {:induction false} InsertionKeepsMember(compare: (nat, nat) -> int, s: seq<nat>, z: nat, x: nat)
    requires x in s
    ensures x in Inserted(compare, s, z)
  {
    InsertionAdds(compare, s, z);
    assert x in multiset(s);
    assert x in multiset(Inserted(compare, s, z));
  }

  /** The elements that are already there keep their order. */
  lemma {:induction false} InsertionKeepsOrder(compare: (nat, nat) -> int, s: seq<nat>, z: nat, first: nat, second: nat)
    requires Before(s, first, second)
    ensures Before(Inserted(compare, s, z), first, second)
  {
    var i, j :| 0 <= i < j < |s| && s[i] == first && s[j] == second;
    var t, n := Inserted(compare, s, z), |s| - 1;
    if compare(s[n], z) <= 0 {
      assert t[i] == first && t[j] == second;
    } else {
      var front := s[..n];
      var rest := Inserted(compare, front, z);
      if j < n {
        assert front[i] == first && front[j] == second;
        InsertionKeepsOrder(compare, front, z, first, second);
        var k, l :| 0 <= k < l < |rest| && rest[k] == first && rest[l] == second;
        assert t[k] == first && t[l] == second;
      } else {
        assert front[i] == first;
        InsertionKeepsMember(compare, front, z, first);
        var k :| 0 <= k < |rest| && rest[k] == first;
        assert t[k] == first && t[|rest|] == second;
      }
    }
  }

  /** Any further elements can be inserted into an accepted arrangement. */
  lemma {:induction false} InsertAll(
      compare: (nat, nat) -> int, s: seq<nat>, more: multiset<nat>, first: nat, second: nat)
      returns (t: seq<nat>)
    requires Antisymmetric(compare) && Accepted(compare, s) && Before(s, first, second)
    ensures Accepted(compare, t) && Before(t, first, second) && multiset(t) == multiset(s) + more
    decreases |more|
  {
    if more == multiset{} {
      t := s;
    } else {
      var z :| z in more;
      InsertionIsAccepted(compare, s, z);
      InsertionAdds(compare, s, z);
      InsertionKeepsOrder(compare, s, z, first, second);
      t := InsertAll(compare, Inserted(compare, s, z), more - multiset{z}, first, second);
    }
  }

  /** If the comparator has the wrong sign on some pair present, it accepts an arrangement with that pair the
      wrong way round. */
  lemma WrongPairStays(compare: (nat, nat) -> int, s: seq<nat>, x: nat, y: nat) returns (t: seq<nat>)
    requires Antisymmetric(compare) && x in s && y in s && x < y && compare(y, x) <= 0
    ensures multiset(t) == multiset(s) && Accepted(compare, t) && !Sorted(t)
  {
    var pair := [y, x];
    assert pair[0] == y && pair[1] == x && multiset(pair) == multiset{x, y};
    assert x in multiset(s) && y in multiset(s);
    t := InsertAll(compare, pair, multiset(s) - multiset{x, y}, y, x);
    assert multiset(t) == multiset(s);
    var i, j :| 0 <= i < j < |t| && t[i] == y && t[j] == x;
  }

  /** Exactly when sorting works: every arrangement of an array to which the comparator does not object is
      sorted if and only if the comparator has the right sign on every pair of values present. */
  lemma SortsIffWellOrdered(compare: (nat, nat) -> int, s: seq<nat>)
    requires Antisymmetric(compare)
    ensures
      (forall t: seq<nat> :: multiset(t) == multiset(s) && Accepted(compare, t) ==> Sorted(t))
      <==> WellOrdered(compare, s)
  {
    if WellOrdered(compare, s) {
      forall t: seq<nat> | multiset(t) == multiset(s) && Accepted(compare, t) ensures Sorted(t) {
        StillWellOrdered(compare, s, t);
        AcceptedIsSorted(compare, t);
      }
    } else {
      var x, y :| x in s && y in s && x < y && compare(y, x) <= 0;
      var t := WrongPairStays(compare, s, x, y);
    }
  }

  lemma StillWellOrdered(compare: (nat, nat) -> int, s: seq<nat>, t: seq<nat>)
    requires WellOrdered(compare, s) && multiset(t) == multiset(s)
    ensures WellOrdered(compare, t)
  {
    forall x, y | x in t && y in t && x < y ensures compare(y, x) > 0 {
      assert x in multiset(t) && y in multiset(t);
      assert x in s && y in s;
    }
  }

  /** With the values of the cycle the comparator accepts an array that is out of order. */
  lemma CycleIsAcceptedUnsorted()
    ensures Accepted(CompareULLongs, [0x7FFF_FFFF, 0xFFFF_FFFE, 0]) && !Sorted([0x7FFF_FFFF, 0xFFFF_FFFE, 0])
  {
    ComparatorCycles();
    var t: seq<nat> := [0x7FFF_FFFF, 0xFFFF_FFFE, 0];
    assert t[0] > t[2];
  }

  /** Stands for the library's qsort: an in-place permutation to which the comparator does not object. */
  method Qsort(a: array<nat>, compare: (nat, nat) -> int)
    requires Antisymmetric(compare)
    modifies a
    ensures multiset(a[..]) == multiset(old(a[..])) && Accepted(compare, a[..])
  {
    var i := 0;
    while i < a.Length
      invariant 0 <= i <= a.Length
      invariant multiset(a[..]) == multiset(old(a[..]))
      invariant Accepted(compare, a[..i])
    {
      Insert(a, i, compare);
      i := i + 1;
    }
    assert a[..i] == a[..];
  }

  /** The arrangement is accepted except that element j may have to move further down. */
  ghost predicate AcceptedBut(compare: (nat, nat) -> int, s: seq<nat>, j: nat)
    requires j < |s|
  {
    && (forall k, l :: 0 <= k < |s| && 0 <= l < |s| && l == k + 1 && k != j && l != j ==> compare(s[k], s[l]) <= 0)
    && (j + 1 < |s| ==> compare(s[j], s[j + 1]) <= 0)
    && (0 < j && j + 1 < |s| ==> compare(s[j - 1], s[j + 1]) <= 0)
  }

  function Swapped(s: seq<nat>, j: nat): seq<nat>
    requires 0 < j < |s|
  {
    s[j - 1 := s[j]][j := s[j - 1]]
  }

  lemma MovesDown(compare: (nat, nat) -> int, s: seq<nat>, j: nat)
    requires 0 < j < |s| && AcceptedBut(compare, s, j) && compare(s[j - 1], s[j]) > 0 && Antisymmetric(compare)
    ensures AcceptedBut(compare, Swapped(s, j), j - 1)
  {}

  method Swap(a: array<nat>, j: nat)
    requires 0 < j < a.Length
    modifies a
    ensures a[..] == Swapped(old(a[..]), j) && multiset(a[..]) == multiset(old(a[..]))
  {
    a[j - 1], a[j] := a[j], a[j - 1];
  }

  method Insert(a: array<nat>, i: nat, compare: (nat, nat) -> int)
    requires i < a.Length && Accepted(compare, a[..i]) && Antisymmetric(compare)
    modifies a
    ensures multiset(a[..]) == multiset(old(a[..])) && Accepted(compare, a[..i + 1])
  {
    assert forall k :: 0 <= k < i ==> a[..i][k] == a[..i + 1][k];
    var j := i;
    while j > 0 && compare(a[j - 1], a[j]) > 0
      invariant 0 <= j <= i
      invariant multiset(a[..]) == multiset(old(a[..]))
      invariant AcceptedBut(compare, a[..i + 1], j)
    {
      MovesDown(compare, a[..i + 1], j);
      ghost var before := a[..i + 1];
      Swap(a, j);
      assert a[..i + 1] == Swapped(before, j);
      j := j - 1;
    }
    assert a[..i + 1][j] == a[j] && (j > 0 ==> a[..i + 1][j - 1] == a[j - 1]);
  }

  lemma SameLast(s: seq<nat>, t: seq<nat>)
    requires Sorted(s) && Sorted(t) && multiset(s) == multiset(t) && |s| == |t| > 0
    ensures s[|s| - 1] == t[|t| - 1]
  {
    var n := |s| - 1;
    assert s[n] in multiset(t) && t[n] in multiset(s);
    assert s[n] in t && t[n] in s;
  }

  lemma WithoutLast(s: seq<nat>)
    requires |s| > 0
    ensures multiset(s[..|s| - 1]) == multiset(s) - multiset{s[|s| - 1]}
  {
    assert s == s[..|s| - 1] + [s[|s| - 1]];
  }

  lemma SameLength(s: seq<nat>, t: seq<nat>)
    requires multiset(s) == multiset(t)
    ensures |s| == |t|
  {
    assert |s| == |multiset(s)| && |t| == |multiset(t)|;
  }

  lemma FrontsAgree(s: seq<nat>, t: seq<nat>)
    requires Sorted(s) && Sorted(t) && multiset(s) == multiset(t) && |s| == |t| > 0
    ensures s[|s| - 1] == t[|t| - 1] && Sorted(s[..|s| - 1]) && Sorted(t[..|t| - 1])
    ensures multiset(s[..|s| - 1]) == multiset(t[..|t| - 1])
  {
    SameLast(s, t);
    WithoutLast(s);
    WithoutLast(t);
  }

  lemma EqualByLast(s: seq<nat>, t: seq<nat>)
    requires |s| == |t| > 0 && s[..|s| - 1] == t[..|t| - 1] && s[|s| - 1] == t[|t| - 1]
    ensures s == t
  {
    forall i | 0 <= i < |s| ensures s[i] == t[i] {
      if i < |s| - 1 { assert s[i] == s[..|s| - 1][i] && t[i] == t[..|t| - 1][i]; }
    }
  }

  /** Whatever sorting algorithm the library uses, the sorted array is the same. */
  lemma {:induction false} SortedPermutationIsUnique(s: seq<nat>, t: seq<nat>)
    requires Sorted(s) && Sorted(t) && multiset(s) == multiset(t)
    ensures s == t
  {
    SameLength(s, t);
    if s != [] {
      FrontsAgree(s, t);
      SortedPermutationIsUnique(s[..|s| - 1], t[..|t| - 1]);
      EqualByLast(s, t);
    }
  }

  lemma SortedEnds(before: seq<nat>, after: seq<nat>, min: nat, max: nat)
    requires |before| > 0 && multiset(before) == multiset(after) && Sorted(after)
    requires IsLeast(min, before) && IsGreatest(max, before)
    ensures |after| == |before| && after[0] == min && after[|after| - 1] == max
  {
    assert |after| == |multiset(after)| == |multiset(before)| == |before|;
    assert min in multiset(before) && max in multiset(before);
    assert after[0] in multiset(after) && after[|after| - 1] in multiset(after);
    assert after[0] in before && after[|after| - 1] in before;
    assert min in after && max in after;
  }

  /** The middle element of an odd number, half the 64-bit sum of the two middle ones of an even number. */
  ghost predicate IsMiddle(s: seq<nat>, median: real) {
    && |s| > 0
    && (|s| % 2 == 1 ==> median == s[|s| / 2] as real)
    && (|s| % 2 == 0 ==> 2.0 * median == Wrap64(s[|s| / 2 - 1] + s[|s| / 2]) as real)
  }

  /** There is one middle element, or the sum of the two does not overflow. */
  predicate NoOverflow(count: nat, max: nat) {
    count % 2 == 1 || 2 * max < TWO_TO_64
  }

  /** How many elements are less, or greater, than a value. */
  function Below(s: seq<nat>, m: real): nat {
    if s == [] then 0
    else Below(s[..|s| - 1], m) + (if s[|s| - 1] as real < m then 1 else 0)
  }

  function Above(s: seq<nat>, m: real): nat {
    if s == [] then 0
    else Above(s[..|s| - 1], m) + (if s[|s| - 1] as real > m then 1 else 0)
  }

  lemma {:induction false} CountsAdd(s: seq<nat>, t: seq<nat>, m: real)
    ensures Below(s + t, m) == Below(s, m) + Below(t, m) && Above(s + t, m) == Above(s, m) + Above(t, m)
  {
    if t == [] {
      assert s + t == s;
    } else {
      var n := |t| - 1;
      CountsAdd(s, t[..n], m);
      assert (s + t)[..|s + t| - 1] == s + t[..n] && (s + t)[|s + t| - 1] == t[n];
    }
  }

  lemma Without(t: seq<nat>, i: nat, m: real) returns (rest: seq<nat>)
    requires i < |t|
    ensures multiset(rest) == multiset(t) - multiset{t[i]} && |rest| == |t| - 1
    ensures Below(t, m) == Below(rest, m) + (if t[i] as real < m then 1 else 0)
    ensures Above(t, m) == Above(rest, m) + (if t[i] as real > m then 1 else 0)
  {
    rest := t[..i] + t[i + 1..];
    assert t == (t[..i] + [t[i]]) + t[i + 1..];
    CountsAdd(t[..i] + [t[i]], t[i + 1..], m);
    CountsAdd(t[..i], [t[i]], m);
    CountsAdd(t[..i], t[i + 1..], m);
    assert [t[i]][..0] == [];
  }

  /** Counts do not depend on the arrangement. */
  lemma {:induction false} CountsOfPermutation(s: seq<nat>, t: seq<nat>, m: real)
    requires multiset(s) == multiset(t)
    ensures Below(s, m) == Below(t, m) && Above(s, m) == Above(t, m)
    decreases |s|
  {
    SameLength(s, t);
    if s != [] {
      var n := |s| - 1;
      WithoutLast(s);
      assert s[n] in multiset(t);
      var i :| 0 <= i < |t| && t[i] == s[n];
      var rest := Without(t, i, m);
      CountsOfPermutation(s[..n], rest, m);
    }
  }

  lemma {:induction false} FewBelow(s: seq<nat>, m: real, h: nat)
    requires forall i :: h <= i < |s| ==> s[i] as real >= m
    ensures Below(s, m) <= h
  {
    if s != [] && |s| > h {
      FewBelow(s[..|s| - 1], m, h);
    } else if s != [] {
      FewBelow(s[..|s| - 1], m, |s| - 1);
    }
  }

  lemma {:induction false} FewAbove(s: seq<nat>, m: real, h: nat)
    requires h <= |s| && forall i :: 0 <= i < h ==> s[i] as real <= m
    ensures Above(s, m) <= |s| - h
  {
    if |s| > h {
      FewAbove(s[..|s| - 1], m, h);
    } else if s != [] {
      FewAbove(s[..|s| - 1], m, h - 1);
    }
  }

  lemma MedianBetween(s: seq<nat>, m: real)
    requires |s| > 0 && Sorted(s) && NoOverflow(|s|, s[|s| - 1]) && IsMiddle(s, m)
    ensures s[0] as real <= m <= s[|s| - 1] as real
  {}

  /** At most half of the values are less than the middle of a sorted sequence and at most half greater. */
  lemma MedianSplits(s: seq<nat>, m: real)
    requires |s| > 0 && Sorted(s) && NoOverflow(|s|, s[|s| - 1]) && IsMiddle(s, m)
    ensures Below(s, m) <= |s| / 2 && Above(s, m) <= |s| / 2
  {
    var h := |s| / 2;
    if |s| % 2 == 1 {
      FewBelow(s, m, h);
      FewAbove(s, m, h + 1);
    } else {
      assert s[h - 1] + s[h] < TWO_TO_64;
      assert s[h - 1] as real <= m <= s[h] as real;
      FewBelow(s, m, h);
      FewAbove(s, m, h);
    }
  }

  /** The scan for the least and the greatest element. */
  method Extremes(arr: array<nat>) returns (min: nat, max: nat)
    requires arr.Length > 0
    ensures IsLeast(min, arr[..]) && IsGreatest(max, arr[..])
  {
    min, max := arr[0], arr[0];
    for i := 1 to arr.Length
      invariant min in arr[..] && max in arr[..]
      invariant forall j :: 0 <= j < i ==> min <= arr[..][j] <= max
    {
      if arr[i] < min {
        min := arr[i];
      } else if arr[i] > max {
        max := arr[i];
      }
    }
  }

  method MedianOf(arr: array<nat>) returns (median: real)
    requires arr.Length > 0
    ensures IsMiddle(arr[..], median)
  {
    var size := arr.Length;
    if size % 2 == 0 {
      median := Wrap64(arr[size / 2 - 1] + arr[size / 2]) as real / 2.0;
    } else {
      median := arr[size / 2] as real;
    }
  }

  /** Minimum, maximum and median with any comparator that objects to no pair both ways. */
  method OrderStatistics(arr: array<nat>, compare: (nat, nat) -> int) returns (min: nat, max: nat, median: real)
    requires arr.Length > 0 && Antisymmetric(compare)
    modifies arr
    ensures IsLeast(min, old(arr[..])) && IsGreatest(max, old(arr[..]))
    ensures multiset(arr[..]) == multiset(old(arr[..])) && Accepted(compare, arr[..])
    ensures IsMiddle(arr[..], median)
    ensures WellOrdered(compare, old(arr[..])) ==> OrderedStatistics(old(arr[..]), arr[..], min, max, median)
  {
    min, max := Extremes(arr);
    ghost var before := arr[..];
    Qsort(arr, compare);
    median := MedianOf(arr);
    if WellOrdered(compare, before) { SortedStatistics(compare, before, arr[..], min, max, median); }
  }

  /** The array is sorted and its ends are the extremes; the median lies between them, with at most half
      of the values below it and at most half above. */
  ghost predicate OrderedStatistics(before: seq<nat>, after: seq<nat>, min: nat, max: nat, median: real) {
    && |after| == |before| > 0 && Sorted(after) && after[0] == min && after[|after| - 1] == max
    && (NoOverflow(|before|, max) ==>
          && min as real <= median <= max as real
          && Below(before, median) <= |before| / 2 && Above(before, median) <= |before| / 2)
  }

  /** The order statistics of `analyze_array`. Minimum and maximum are exact for all inputs; if the
      comparator has the right sign on every pair of latencies, as it has when they lie within 2^31 of
      each other, the array ends up sorted between them with the median in the middle. The
      caller has asserted that there is at least one latency. */
  method AnalyzeArray(arr: array<nat>) returns (min: nat, max: nat, median: real)
    requires arr.Length > 0
    modifies arr
    ensures IsLeast(min, old(arr[..])) && IsGreatest(max, old(arr[..]))
    ensures multiset(arr[..]) == multiset(old(arr[..])) && Accepted(CompareULLongs, arr[..])
    ensures IsMiddle(arr[..], median)
    ensures WellOrdered(CompareULLongs, old(arr[..])) ==> OrderedStatistics(old(arr[..]), arr[..], min, max, median)
  {
    ComparatorIsAntisymmetric();
    min, max, median := OrderStatistics(arr, CompareULLongs);
  }

  lemma SortedStatistics(compare: (nat, nat) -> int, before: seq<nat>, after: seq<nat>,
                         min: nat, max: nat, median: real)
    requires |before| > 0 && multiset(before) == multiset(after)
    requires WellOrdered(compare, before) && Accepted(compare, after)
    requires IsLeast(min, before) && IsGreatest(max, before) && IsMiddle(after, median)
    ensures OrderedStatistics(before, after, min, max, median)
  {
    StillWellOrdered(compare, before, after);
    AcceptedIsSorted(compare, after);
    SortedEnds(before, after, min, max);
    if NoOverflow(|before|, max) {
      MedianBetween(after, median);
      MedianSplits(after, median);
      CountsOfPermutation(before, after, median);
    }
  }
}
