/**
 * The window measure of the isolation checker, floating point included.
 *
 * A window's far end is computed in binary64, and whether an arrival exactly one window later is counted
 * depends on what the rounding leaves of 1e-9. Binary64 derives that; here it decides which histories the
 * measure judges rightly.
 */
module WindowPeak {
  import opened Binary64

  /** How many times lie in [lo, hi], both ends included. */
  function CountIn(times: seq<int>, lo: int, hi: int): nat {
    if times == [] then 0
    else CountIn(times[..|times| - 1], lo, hi) + (if lo <= times[|times| - 1] <= hi then 1 else 0)
  }

  predicate Ascending(times: seq<int>) {
    forall i, j :: 0 <= i < j < |times| ==> times[i] <= times[j]
  }

  function Insert(t: int, sorted: seq<int>): seq<int> {
    if sorted == [] || sorted[|sorted| - 1] <= t then sorted + [t]
    else Insert(t, sorted[..|sorted| - 1]) + [sorted[|sorted| - 1]]
  }

  function Sort(times: seq<int>): seq<int> {
    if times == [] then [] else Insert(times[|times| - 1], Sort(times[..|times| - 1]))
  }

  /** The insertion point after every time not above the limit. */
  function BisectRight(sorted: seq<int>, limit: int): (j: nat)
    ensures j <= |sorted|
  {
    if sorted == [] || sorted[|sorted| - 1] <= limit then |sorted| else BisectRight(sorted[..|sorted| - 1], limit)
  }

  lemma AppendCounts(times: seq<int>, t: int, lo: int, hi: int)
    ensures CountIn(times + [t], lo, hi) == CountIn(times, lo, hi) + (if lo <= t <= hi then 1 else 0)
  {
    assert (times + [t])[..|times|] == times;
  }

  lemma {:induction false} InsertSorts(t: int, sorted: seq<int>, top: int)
    requires Ascending(sorted) && t <= top && (sorted != [] ==> sorted[|sorted| - 1] <= top)
    ensures Ascending(Insert(t, sorted)) && Insert(t, sorted) != [] && Insert(t, sorted)[|Insert(t, sorted)| - 1] <= top
  {
    if sorted != [] && sorted[|sorted| - 1] > t {
      InsertSorts(t, sorted[..|sorted| - 1], sorted[|sorted| - 1]);
    }
  }

  lemma {:induction false} InsertCounts(t: int, sorted: seq<int>, lo: int, hi: int)
    ensures CountIn(Insert(t, sorted), lo, hi) == CountIn(sorted, lo, hi) + (if lo <= t <= hi then 1 else 0)
  {
    if sorted == [] || sorted[|sorted| - 1] <= t {
      AppendCounts(sorted, t, lo, hi);
    } else {
      var rest, last := sorted[..|sorted| - 1], sorted[|sorted| - 1];
      InsertCounts(t, rest, lo, hi);
      AppendCounts(Insert(t, rest), last, lo, hi);
    }
  }

  lemma {:induction false} SortSorts(times: seq<int>)
    ensures Ascending(Sort(times))
    ensures forall lo, hi :: CountIn(Sort(times), lo, hi) == CountIn(times, lo, hi)
  {
    if times != [] {
      var rest, t := times[..|times| - 1], times[|times| - 1];
      SortSorts(rest);
      var sorted := Sort(rest);
      InsertSorts(t, sorted, if sorted == [] || sorted[|sorted| - 1] <= t then t else sorted[|sorted| - 1]);
      forall lo, hi
        ensures CountIn(Sort(times), lo, hi) == CountIn(times, lo, hi)
      {
        InsertCounts(t, sorted, lo, hi);
      }
    }
  }

  lemma {:induction false} BisectSplits(sorted: seq<int>, limit: int)
    requires Ascending(sorted)
    ensures forall i :: 0 <= i < BisectRight(sorted, limit) ==> sorted[i] <= limit
    ensures forall i :: BisectRight(sorted, limit) <= i < |sorted| ==> sorted[i] > limit
  {
    if sorted != [] {
      if sorted[|sorted| - 1] > limit {
        BisectSplits(sorted[..|sorted| - 1], limit);
        assert forall i :: 0 <= i < |sorted| - 1 ==> sorted[..|sorted| - 1][i] == sorted[i];
      }
    }
  }

  lemma AllCounted(rest: seq<int>, last: int)
    requires Ascending(rest + [last])
    ensures forall i :: 0 <= i < |rest| ==> rest[i] <= last
  {
    forall i | 0 <= i < |rest|
      ensures rest[i] <= last
    {
      assert (rest + [last])[i] <= (rest + [last])[|rest|];
    }
  }

  /** On sorted times a count is the distance of two insertion points. */
  lemma {:induction false} CountIsDistance(sorted: seq<int>, lo: int, hi: int)
    requires Ascending(sorted) && lo <= hi + 1
    ensures CountIn(sorted, lo, hi) == BisectRight(sorted, hi) - BisectRight(sorted, lo - 1)
  {
    if sorted != [] {
      var rest, last := sorted[..|sorted| - 1], sorted[|sorted| - 1];
      CountIsDistance(rest, lo, hi);
      if last <= hi {
        AllCounted(rest, last);
        assert BisectRight(rest, hi) == |rest| by { BisectSplits(rest, hi); }
        assert last < lo ==> BisectRight(rest, lo - 1) == |rest| by { BisectSplits(rest, lo - 1); }
      }
    }
  }

  // ---- the measure

  /** Positions of a window whose two ends are integers that binary64 holds exactly. */
  predicate OnScale(window: nat, t: int) {
    0 <= t && t + window <= LAST_INTEGER
  }

  /** How many times lie between an instant and a real end, both included. */
  ghost function CountUntil(times: seq<int>, lo: int, end: real): nat {
    if times == [] then 0
    else
      var last := times[|times| - 1];
      CountUntil(times[..|times| - 1], lo, end) + (if lo <= last && last as real <= end then 1 else 0)
  }

  /** What a window starting at an instant counts, when its end is rounded as binary64 does. */
  ghost function Measured(times: seq<int>, window: nat, t: int): nat
    requires OnScale(window, t)
  {
    CountUntil(times, t, RoundedEnd(t + window))
  }

  function Counted(times: seq<int>, window: nat, t: int): nat {
    CountIn(times, t, LastCounted(t + window))
  }

  lemma {:induction false} UntilIsIn(times: seq<int>, lo: int, n: int)
    requires 0 <= n <= LAST_INTEGER
    ensures CountUntil(times, lo, RoundedEnd(n)) == CountIn(times, lo, LastCounted(n))
  {
    hide RoundedEnd, LastCounted;
    if times != [] {
      UntilIsIn(times[..|times| - 1], lo, n);
      EndIsLastCounted(n, times[|times| - 1]);
    }
  }

  lemma MeasuredIsCounted(times: seq<int>, window: nat, t: int)
    requires OnScale(window, t)
    ensures Measured(times, window, t) == Counted(times, window, t)
  {
    UntilIsIn(times, t, t + window);
  }

  /** The most times that any position of the window counts. */
  ghost predicate IsWindowPeak(times: seq<int>, window: nat, best: int) {
    && best >= 0
    && (forall t :: OnScale(window, t) ==> Measured(times, window, t) <= best)
    && (best > 0 ==> exists t :: OnScale(window, t) && Measured(times, window, t) == best)
  }

  /** The same in whole numbers. */
  ghost predicate IsCountedPeak(times: seq<int>, window: nat, best: int) {
    && best >= 0
    && (forall t :: OnScale(window, t) ==> Counted(times, window, t) <= best)
    && (best > 0 ==> exists t :: OnScale(window, t) && Counted(times, window, t) == best)
  }

  lemma PeakIsCounted(times: seq<int>, window: nat, best: int)
    ensures IsWindowPeak(times, window, best) <==> IsCountedPeak(times, window, best)
  {
    forall t | OnScale(window, t)
      ensures Measured(times, window, t) == Counted(times, window, t)
    {
      MeasuredIsCounted(times, window, t);
    }
    hide Measured, Counted;
  }

  function FoundAt(sorted: seq<int>, window: nat, i: nat): int
    requires i < |sorted|
  {
    BisectRight(sorted, LastCounted(sorted[i] + window)) - i
  }

  lemma {:induction false} CountsItself(times: seq<int>, k: nat)
    requires k < |times|
    ensures CountIn(times, times[k], times[k]) > 0
  {
    if k < |times| - 1 {
      CountsItself(times[..|times| - 1], k);
    }
  }

  lemma {:induction false} SomeCounted(times: seq<int>, lo: int, hi: int) returns (i: nat)
    requires CountIn(times, lo, hi) > 0
    ensures i < |times| && lo <= times[i] <= hi
  {
    if lo <= times[|times| - 1] <= hi {
      i := |times| - 1;
    } else {
      i := SomeCounted(times[..|times| - 1], lo, hi);
    }
  }

  /** A sorted time is one of the original ones. */
  lemma Occurs(unsorted: seq<int>, sorted: seq<int>, k: nat) returns (i: nat)
    requires k < |sorted| && forall lo, hi :: CountIn(sorted, lo, hi) == CountIn(unsorted, lo, hi)
    ensures i < |unsorted| && unsorted[i] == sorted[k]
  {
    CountsItself(sorted, k);
    i := SomeCounted(unsorted, sorted[k], sorted[k]);
  }

  lemma BisectGrows(sorted: seq<int>, limit: int, higher: int)
    requires Ascending(sorted) && limit <= higher
    ensures BisectRight(sorted, limit) <= BisectRight(sorted, higher)
  {
    BisectSplits(sorted, limit);
    BisectSplits(sorted, higher);
  }

  /** A window that counts anything counts no more than the one starting at the first time it counts. */
  lemma WindowStartsAtTime(sorted: seq<int>, window: nat, t: int, best: int)
    requires Ascending(sorted) && best >= 0 && forall k :: 0 <= k < |sorted| ==> FoundAt(sorted, window, k) <= best
    ensures Counted(sorted, window, t) <= best
  {
    var limit, k := LastCounted(t + window), BisectRight(sorted, t - 1);
    CountIsDistance(sorted, t, limit);
    BisectSplits(sorted, t - 1);
    if k < |sorted| {
      BisectGrows(sorted, limit, LastCounted(sorted[k] + window));
      assert FoundAt(sorted, window, k) <= best;
    }
  }

  lemma FoundIsCounted(sorted: seq<int>, window: nat, k: nat)
    requires Ascending(sorted) && k < |sorted|
    ensures Counted(sorted, window, sorted[k]) >= FoundAt(sorted, window, k)
  {
    CountIsDistance(sorted, sorted[k], LastCounted(sorted[k] + window));
    BisectSplits(sorted, sorted[k] - 1);
  }

  /** The best of the counts found from the times themselves is the best of all positions. */
  lemma FoundIsPeak(unsorted: seq<int>, sorted: seq<int>, window: nat, best: int)
    requires Ascending(sorted) && forall lo, hi :: CountIn(sorted, lo, hi) == CountIn(unsorted, lo, hi)
    requires best >= 0 && forall k :: 0 <= k < |sorted| ==> FoundAt(sorted, window, k) <= best
    requires best > 0 ==> exists k :: 0 <= k < |sorted| && FoundAt(sorted, window, k) == best
    ensures (forall i :: 0 <= i < |unsorted| ==> OnScale(window, unsorted[i])) ==> IsWindowPeak(unsorted, window, best)
  {
    forall t
      ensures Counted(unsorted, window, t) <= best
    {
      WindowStartsAtTime(sorted, window, t, best);
    }
    if best > 0 && forall i :: 0 <= i < |unsorted| ==> OnScale(window, unsorted[i]) {
      var k :| 0 <= k < |sorted| && FoundAt(sorted, window, k) == best;
      FoundIsCounted(sorted, window, k);
      assert Counted(unsorted, window, sorted[k]) == best;
      assert OnScale(window, sorted[k]) by {
        var i := Occurs(unsorted, sorted, k);
      }
    }
    PeakIsCounted(unsorted, window, best);
  }

  method MaxInWindow(unsorted: seq<int>, window: nat) returns (best: int)
    ensures (forall i :: 0 <= i < |unsorted| ==> OnScale(window, unsorted[i])) ==> IsWindowPeak(unsorted, window, best)
  {
    var times := Sort(unsorted);
    SortSorts(unsorted);
    best := 0;
    for i := 0 to |times|
      invariant best >= 0
      invariant forall k :: 0 <= k < i ==> FoundAt(times, window, k) <= best
      invariant best > 0 ==> exists k :: 0 <= k < i && FoundAt(times, window, k) == best
    {
      var found := FoundAt(times, window, i);
      best := if best < found then found else best;
    }
    FoundIsPeak(unsorted, times, window, best);
  }

  // ---- what the measure says about a budget

  /** No half-open window holds more times than the budget, wherever it starts. */
  ghost predicate WithinBudget(times: seq<int>, window: int, budget: int) {
    forall lo, hi :: hi < lo + window ==> CountIn(times, lo, hi) <= budget
  }

  lemma {:induction false} CountGrows(times: seq<int>, lo: int, hi: int, top: int)
    requires forall i :: 0 <= i < |times| && times[i] <= hi ==> times[i] <= top
    ensures CountIn(times, lo, hi) <= CountIn(times, lo, top)
  {
    if times != [] {
      CountGrows(times[..|times| - 1], lo, hi, top);
    }
  }

  predicate IsOnClock(times: seq<int>, latest: nat) {
    forall i :: 0 <= i < |times| ==> 0 <= times[i] <= latest
  }

  /** Every history within budget, on a clock up to a latest instant, is measured as within budget. */
  ghost predicate IsFaithful(window: nat, budget: nat, latest: nat) {
    forall times, best ::
      IsOnClock(times, latest) && WithinBudget(times, window, budget) && IsWindowPeak(times, window, best)
      ==> best <= budget
  }

  lemma {:induction false} NothingBefore(times: seq<int>, lo: int, hi: int)
    requires lo <= 0 && forall i :: 0 <= i < |times| ==> 0 <= times[i]
    ensures CountIn(times, lo, hi) == CountIn(times, 0, hi)
  {
    if times != [] {
      NothingBefore(times[..|times| - 1], lo, hi);
    }
  }

  lemma {:induction false} NothingAfter(times: seq<int>, lo: int, hi: int, latest: int)
    requires latest < lo && forall i :: 0 <= i < |times| ==> times[i] <= latest
    ensures CountIn(times, lo, hi) == 0
  {
    if times != [] {
      NothingAfter(times[..|times| - 1], lo, hi, latest);
    }
  }

  lemma AnyWindowIsBelow(times: seq<int>, window: nat, best: int, latest: nat, lo: int, hi: int)
    requires IsCountedPeak(times, window, best) && IsOnClock(times, latest) && hi < lo + window
    requires latest <= LAST_EXACT && latest + window <= LAST_INTEGER
    ensures CountIn(times, lo, hi) <= best
  {
    var start := if lo < 0 then 0 else lo;
    if start > latest {
      NothingAfter(times, lo, hi, latest);
    } else {
      if lo < 0 {
        NothingBefore(times, lo, hi);
      }
      assert OnScale(window, start);
      CountGrows(times, start, hi, LastCounted(start + window));
      assert Counted(times, window, start) <= best;
    }
  }

  /** While the clock stays at or below 2^24 ms, the measure is the maximum over every half-open window. */
  lemma SmallClockIsExact(times: seq<int>, window: nat, best: int, budget: nat, latest: nat)
    requires IsWindowPeak(times, window, best) && IsOnClock(times, latest)
    requires latest <= LAST_EXACT && latest + window <= LAST_INTEGER
    ensures best <= budget <==> WithinBudget(times, window, budget)
  {
    PeakIsCounted(times, window, best);
    forall lo, hi | hi < lo + window
      ensures CountIn(times, lo, hi) <= best
    {
      AnyWindowIsBelow(times, window, best, latest, lo, hi);
    }
    if best > 0 {
      var t :| OnScale(window, t) && Counted(times, window, t) == best;
      CountGrows(times, t, LastCounted(t + window), t + window - 1);
      assert t + window - 1 < t + window;
    }
  }

  /** With any clock, a measured window one shorter than the budget's is safe. */
  lemma ShorterWindowIsSafe(times: seq<int>, window: nat, best: int, budget: nat)
    requires IsWindowPeak(times, window, best) && WithinBudget(times, window + 1, budget)
    ensures best <= budget
  {
    PeakIsCounted(times, window, best);
    if best > 0 {
      var t :| OnScale(window, t) && Counted(times, window, t) == best;
      assert LastCounted(t + window) < t + (window + 1);
    }
  }

  function Repeat(t: int, n: nat): (times: seq<int>)
    ensures |times| == n && forall i :: 0 <= i < n ==> times[i] == t
  {
    if n == 0 then [] else Repeat(t, n - 1) + [t]
  }

  lemma {:induction false} CountRepeat(t: int, n: nat, lo: int, hi: int)
    ensures CountIn(Repeat(t, n), lo, hi) == (if lo <= t <= hi then n else 0)
  {
    if n > 0 {
      CountRepeat(t, n - 1, lo, hi);
      AppendCounts(Repeat(t, n - 1), t, lo, hi);
    }
  }

  /** The overspending that is none: a full budget at one instant and one more exactly a window later. */
  lemma MeasuredOverBudget(window: nat, budget: nat, latest: nat)
    requires LAST_EXACT < latest <= LAST_INTEGER && 0 < window <= latest && budget >= 1
    ensures !IsFaithful(window, budget, latest)
  {
    var first := latest - window;
    var times := Repeat(first, budget) + [latest];
    forall lo, hi
      ensures CountIn(times, lo, hi)
           == (if lo <= first <= hi then budget else 0) + (if lo <= latest <= hi then 1 else 0)
    {
      CountRepeat(first, budget, lo, hi);
      AppendCounts(Repeat(first, budget), latest, lo, hi);
    }
    hide CountIn;
    assert WithinBudget(times, window, budget);
    assert IsWindowPeak(times, window, budget + 1) by {
      assert OnScale(window, first) && Counted(times, window, first) == budget + 1;
      PeakIsCounted(times, window, budget + 1);
    }
    assert IsOnClock(times, latest);
  }

  /** A budget over windows of no length forbids nothing, but the measure still counts ties. */
  lemma EmptyWindowIsMeasured(budget: nat, latest: nat)
    requires LAST_EXACT < latest <= LAST_INTEGER
    ensures !IsFaithful(0, budget, latest)
  {
    var times := Repeat(latest, budget + 1);
    forall lo, hi
      ensures CountIn(times, lo, hi) == (if lo <= latest <= hi then budget + 1 else 0)
    {
      CountRepeat(latest, budget + 1, lo, hi);
    }
    hide CountIn;
    assert WithinBudget(times, 0, budget);
    assert IsWindowPeak(times, 0, budget + 1) by {
      assert OnScale(0, latest) && Counted(times, 0, latest) == budget + 1;
      PeakIsCounted(times, 0, budget + 1);
    }
    assert IsOnClock(times, latest);
  }

  lemma {:induction false} StartEarlier(times: seq<int>, lo: int, hi: int, earlier: int)
    requires earlier <= lo
    ensures CountIn(times, lo, hi) <= CountIn(times, earlier, hi)
  {
    if times != [] {
      StartEarlier(times[..|times| - 1], lo, hi, earlier);
    }
  }

  /** On a clock shorter than the window, one window holds everything. */
  lemma WholeClockInWindow(times: seq<int>, lo: int, hi: int, latest: nat, window: nat, budget: nat)
    requires WithinBudget(times, window, budget) && IsOnClock(times, latest) && (latest < window || times == [])
    ensures CountIn(times, lo, hi) <= budget
  {
    if times != [] {
      StartEarlier(times, lo, hi, if lo < 0 then lo else 0);
      CountGrows(times, 0, hi, latest);
      assert latest < 0 + window;
      if lo < 0 {
        NothingBefore(times, lo, hi);
      }
    }
  }

  /** A budget of zero admits nothing. */
  lemma AnythingIsOverZero(times: seq<int>, window: nat)
    requires times != [] && window > 0
    ensures !WithinBudget(times, window, 0)
  {
    var t := times[|times| - 1];
    assert CountIn(times, t, t) > 0 && t < t + window;
  }

  lemma HonestHistoryPasses(times: seq<int>, window: nat, best: int, budget: nat, latest: nat)
    requires IsOnClock(times, latest) && WithinBudget(times, window, budget) && IsWindowPeak(times, window, best)
    requires latest + window <= LAST_INTEGER
    requires latest <= LAST_EXACT || latest < window || (budget == 0 && window > 0)
    ensures best <= budget
  {
    PeakIsCounted(times, window, best);
    if latest <= LAST_EXACT {
      SmallClockIsExact(times, window, best, budget, latest);
    } else if best > 0 {
      var t :| OnScale(window, t) && Counted(times, window, t) == best;
      if times != [] && latest >= window {
        AnythingIsOverZero(times, window);
      }
      WholeClockInWindow(times, t, LastCounted(t + window), latest, window, budget);
    }
  }

  /**
   * The measure agrees with the budget for every history exactly when the clock has not passed 2^24 ms,
   * or has not yet run for a whole window, or when nothing is admitted at all.
   */
  lemma FaithfulExactlyOnSmallClocks(window: nat, budget: nat, latest: nat)
    requires latest + window <= LAST_INTEGER
    ensures IsFaithful(window, budget, latest)
       <==> latest <= LAST_EXACT || latest < window || (budget == 0 && window > 0)
  {
    if latest > LAST_EXACT && window == 0 {
      EmptyWindowIsMeasured(budget, latest);
    } else if latest > LAST_EXACT && latest >= window && budget >= 1 {
      MeasuredOverBudget(window, budget, latest);
    } else {
      forall times, best
        | IsOnClock(times, latest) && WithinBudget(times, window, budget) && IsWindowPeak(times, window, best)
        ensures best <= budget
      {
        HonestHistoryPasses(times, window, best, budget, latest);
      }
    }
  }
}
