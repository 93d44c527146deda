/**
 * The sweep-line measures of the isolation checker, against what they measure: how many half-open
 * intervals are open at an instant.
 */
module Sweep {

  /** One call, open from its start up to but not including its end. */
  datatype Interval = Interval(start: int, end: int)

  datatype Point = Point(time: int, delta: int)

  predicate Contains(i: Interval, t: int) {
    i.start <= t < i.end
  }

  function Open(intervals: seq<Interval>, t: int): nat {
    if intervals == [] then 0
    else Open(intervals[..|intervals| - 1], t) + if Contains(intervals[|intervals| - 1], t) then 1 else 0
  }

  predicate Forward(intervals: seq<Interval>) {
    forall i :: i in intervals ==> i.start <= i.end
  }

  /** The instants cover every interval. */
  predicate Spans(intervals: seq<Interval>, from: int, to: int) {
    from <= to && forall i :: i in intervals ==> from <= i.start && i.end <= to
  }

  // ---- the sorted points

  function Points(intervals: seq<Interval>): seq<Point> {
    if intervals == [] then []
    else
      var last := intervals[|intervals| - 1];
      Points(intervals[..|intervals| - 1]) + [Point(last.start, 1), Point(last.end, -1)]
  }

  /** At one instant, ends sort before starts. */
  predicate Before(a: Point, b: Point) {
    a.time < b.time || (a.time == b.time && a.delta <= b.delta)
  }

  predicate InOrder(points: seq<Point>) {
    forall i, j :: 0 <= i < j < |points| ==> Before(points[i], points[j])
  }

  function Insert(p: Point, sorted: seq<Point>): seq<Point> {
    if sorted == [] || Before(p, sorted[0]) then [p] + sorted else [sorted[0]] + Insert(p, sorted[1..])
  }

  function Sort(points: seq<Point>): seq<Point> {
    if points == [] then [] else Insert(points[|points| - 1], Sort(points[..|points| - 1]))
  }

  function Sum(points: seq<Point>): int {
    if points == [] then 0 else Sum(points[..|points| - 1]) + points[|points| - 1].delta
  }

  /** The deltas of the points up to and including an instant. */
  function Balance(points: seq<Point>, t: int): int {
    if points == [] then 0
    else Balance(points[..|points| - 1], t) + if points[|points| - 1].time <= t then points[|points| - 1].delta else 0
  }

  predicate Units(points: seq<Point>) {
    forall p :: p in points ==> p.delta == 1 || p.delta == -1
  }

  lemma {:induction false} BalanceSplit(a: seq<Point>, b: seq<Point>, t: int)
    ensures Balance(a + b, t) == Balance(a, t) + Balance(b, t)
  {
    if b == [] {
      assert a + b == a;
    } else {
      var n := |b| - 1;
      assert (a + b)[..|a + b| - 1] == a + b[..n];
      BalanceSplit(a, b[..n], t);
    }
  }

  lemma BalanceOfPair(a: Point, b: Point, t: int)
    ensures Balance([a, b], t) == (if a.time <= t then a.delta else 0) + if b.time <= t then b.delta else 0
  {
    assert [a, b][..1] == [a] && [a][..0] == [];
    assert Balance([a], t) == Balance([], t) + if a.time <= t then a.delta else 0;
  }

  /** The balance of the unsorted points is the number of open intervals. */
  lemma {:induction false} BalanceIsOpen(intervals: seq<Interval>, t: int)
    requires Forward(intervals)
    ensures Balance(Points(intervals), t) == Open(intervals, t)
  {
    if intervals != [] {
      var rest, last := intervals[..|intervals| - 1], intervals[|intervals| - 1];
      BalanceIsOpen(rest, t);
      BalanceSplit(Points(rest), [Point(last.start, 1), Point(last.end, -1)], t);
      BalanceOfPair(Point(last.start, 1), Point(last.end, -1), t);
    }
  }

  lemma {:induction false} InsertKeepsOrder(p: Point, sorted: seq<Point>)
    requires InOrder(sorted)
    ensures InOrder(Insert(p, sorted)) && forall q :: q in Insert(p, sorted) <==> q == p || q in sorted
  {
    if sorted != [] && !Before(p, sorted[0]) {
      assert sorted == [sorted[0]] + sorted[1..];
      InsertKeepsOrder(p, sorted[1..]);
      var rest := Insert(p, sorted[1..]);
      assert forall i :: 0 <= i < |rest| ==> rest[i] in rest;
    }
  }

  lemma {:induction false} InsertKeepsBalance(p: Point, sorted: seq<Point>, t: int)
    ensures Balance(Insert(p, sorted), t) == Balance(sorted, t) + if p.time <= t then p.delta else 0
  {
    if sorted == [] || Before(p, sorted[0]) {
      BalanceSplit([p], sorted, t);
    } else {
      InsertKeepsBalance(p, sorted[1..], t);
      BalanceSplit([sorted[0]], Insert(p, sorted[1..]), t);
      BalanceSplit([sorted[0]], sorted[1..], t);
      assert sorted == [sorted[0]] + sorted[1..];
    }
  }

  lemma {:induction false} SortSorts(points: seq<Point>)
    ensures InOrder(Sort(points)) && forall q :: q in Sort(points) <==> q in points
  {
    if points != [] {
      var n := |points| - 1;
      SortSorts(points[..n]);
      InsertKeepsOrder(points[n], Sort(points[..n]));
      assert points == points[..n] + [points[n]];
    }
  }

  lemma {:induction false} SortKeepsBalance(points: seq<Point>, t: int)
    ensures Balance(Sort(points), t) == Balance(points, t)
  {
    if points != [] {
      var n := |points| - 1;
      SortKeepsBalance(points[..n], t);
      InsertKeepsBalance(points[n], Sort(points[..n]), t);
    }
  }

  lemma {:induction false} PointsAreUnits(intervals: seq<Interval>)
    ensures Units(Points(intervals))
  {
    if intervals != [] {
      PointsAreUnits(intervals[..|intervals| - 1]);
    }
  }

  lemma {:induction false} PointsAreWithin(intervals: seq<Interval>, from: int, to: int)
    requires Forward(intervals) && Spans(intervals, from, to)
    ensures forall p :: p in Points(intervals) ==> from <= p.time <= to
  {
    if intervals != [] {
      var n := |intervals| - 1;
      assert intervals[n] in intervals;
      PointsAreWithin(intervals[..n], from, to);
    }
  }

  lemma {:induction false} EndIsPoint(intervals: seq<Interval>, i: Interval)
    requires i in intervals
    ensures Point(i.end, -1) in Points(intervals)
  {
    var n := |intervals| - 1;
    if i != intervals[n] {
      assert intervals == intervals[..n] + [intervals[n]];
      EndIsPoint(intervals[..n], i);
    }
  }

  // ---- prefixes of the sorted points

  lemma {:induction false} BalanceOfPast(points: seq<Point>, t: int)
    requires forall p :: p in points ==> p.time <= t
    ensures Balance(points, t) == Sum(points)
  {
    if points != [] {
      assert points == points[..|points| - 1] + [points[|points| - 1]];
      BalanceOfPast(points[..|points| - 1], t);
    }
  }

  lemma {:induction false} BalanceOfFuture(points: seq<Point>, t: int)
    requires forall p :: p in points ==> p.time > t || p.delta >= 0
    ensures Balance(points, t) >= 0
    ensures (forall p :: p in points ==> p.time > t) ==> Balance(points, t) == 0
  {
    if points != [] {
      assert points == points[..|points| - 1] + [points[|points| - 1]];
      BalanceOfFuture(points[..|points| - 1], t);
    }
  }

  lemma PrefixIsPast(points: seq<Point>, k: nat, t: int)
    requires InOrder(points) && k <= |points| && (k > 0 ==> points[k - 1].time <= t)
    ensures forall p :: p in points[..k] ==> p.time <= t
  {
    forall i | 0 <= i < k
      ensures points[i].time <= t
    {
      assert i < k - 1 ==> Before(points[i], points[k - 1]);
    }
  }

  lemma SuffixIsFuture(points: seq<Point>, k: nat, t: int)
    requires InOrder(points) && k <= |points| && (k < |points| ==> points[k].time > t)
    ensures forall p :: p in points[k..] ==> p.time > t
  {
    forall i | k <= i < |points|
      ensures points[i].time > t
    {
      assert k < i ==> Before(points[k], points[i]);
    }
  }

  /** Up to the k-th point the running count is the balance, once every later point lies in the future. */
  lemma PrefixIsBalance(points: seq<Point>, k: nat, t: int)
    requires InOrder(points) && k <= |points|
    requires k > 0 ==> points[k - 1].time <= t
    requires k < |points| ==> points[k].time > t
    ensures Sum(points[..k]) == Balance(points, t)
  {
    PrefixIsPast(points, k, t);
    SuffixIsFuture(points, k, t);
    hide InOrder;
    assert points == points[..k] + points[k..];
    BalanceSplit(points[..k], points[k..], t);
    BalanceOfPast(points[..k], t);
    BalanceOfFuture(points[k..], t);
  }

  /**
   * After a start, the running count has seen every end at that instant: it is no larger than the final
   * count there.
   */
  lemma StartIsCovered(points: seq<Point>, k: nat)
    requires InOrder(points) && Units(points) && k < |points| && points[k].delta == 1
    ensures Sum(points[..k + 1]) <= Balance(points, points[k].time)
  {
    var t := points[k].time;
    PrefixIsPast(points, k + 1, t);
    forall i | k + 1 <= i < |points|
      ensures points[i].time > t || points[i].delta >= 0
    {
      assert Before(points[k], points[i]);
    }
    hide InOrder;
    assert points == points[..k + 1] + points[k + 1..];
    BalanceSplit(points[..k + 1], points[k + 1..], t);
    BalanceOfPast(points[..k + 1], t);
    BalanceOfFuture(points[k + 1..], t);
  }

  /** How many points lie at or before an instant. */
  lemma PrefixAt(points: seq<Point>, t: int) returns (k: nat)
    requires InOrder(points)
    ensures k <= |points| && Sum(points[..k]) == Balance(points, t)
  {
    k := 0;
    while k < |points| && points[k].time <= t
      invariant k <= |points| && (k > 0 ==> points[k - 1].time <= t)
    {
      k := k + 1;
    }
    PrefixIsBalance(points, k, t);
  }

  lemma SortedPoints(intervals: seq<Interval>) returns (points: seq<Point>)
    requires Forward(intervals)
    ensures points == Sort(Points(intervals)) && InOrder(points) && Units(points)
    ensures forall t :: Balance(points, t) == Open(intervals, t)
  {
    points := Sort(Points(intervals));
    SortSorts(Points(intervals));
    PointsAreUnits(intervals);
    forall t
      ensures Balance(points, t) == Open(intervals, t)
    {
      SortKeepsBalance(Points(intervals), t);
      BalanceIsOpen(intervals, t);
    }
  }

  // ---- the measures

  /** Some instant has that many intervals open, and none has more. */
  ghost predicate IsPeak(intervals: seq<Interval>, peak: int) {
    && peak >= 0
    && (forall t :: Open(intervals, t) <= peak)
    && (peak > 0 ==> exists t :: Open(intervals, t) == peak)
  }

  lemma SumGrows(points: seq<Point>, k: nat)
    requires k < |points|
    ensures Sum(points[..k + 1]) == Sum(points[..k]) + points[k].delta
  {
    assert points[..k + 1][..k] == points[..k];
  }

  lemma UnitAt(points: seq<Point>, k: nat)
    requires Units(points) && k < |points|
    ensures points[k].delta == 1 || points[k].delta == -1
  {
    assert points[k] in points;
  }

  method MaxOverlap(intervals: seq<Interval>) returns (peak: int)
    requires Forward(intervals)
    ensures IsPeak(intervals, peak)
  {
    hide Sort, Points, InOrder, Units, Balance, Open, Forward, Insert;
    var points := Sort(Points(intervals));
    ghost var sorted := SortedPoints(intervals);
    var current := 0;
    peak := 0;
    for k := 0 to |points|
      invariant current == Sum(points[..k])
      invariant peak >= 0 && forall j :: 0 <= j <= k ==> Sum(points[..j]) <= peak
      invariant peak > 0 ==> exists t :: peak <= Open(intervals, t)
    {
      SumGrows(points, k);
      UnitAt(points, k);
      current := current + points[k].delta;
      if current > peak {
        StartIsCovered(points, k);
        assert current <= Open(intervals, points[k].time);
        peak := current;
      }
    }
    forall t
      ensures Open(intervals, t) <= peak
    {
      var k := PrefixAt(points, t);
    }
  }

  /** Integer instants of [lo, hi) at which the open intervals exceed the limit. */
  function InstantsAbove(intervals: seq<Interval>, limit: int, lo: int, hi: int): nat
    decreases hi - lo
  {
    if lo >= hi then 0
    else InstantsAbove(intervals, limit, lo, hi - 1) + (if Open(intervals, hi - 1) > limit then 1 else 0)
  }

  lemma {:induction false} InstantsSplit(intervals: seq<Interval>, limit: int, lo: int, mid: int, hi: int)
    requires lo <= mid <= hi
    ensures InstantsAbove(intervals, limit, lo, hi)
          == InstantsAbove(intervals, limit, lo, mid) + InstantsAbove(intervals, limit, mid, hi)
    decreases hi - mid
  {
    if mid < hi {
      InstantsSplit(intervals, limit, lo, mid, hi - 1);
    }
  }

  lemma {:induction false} InstantsConstant(intervals: seq<Interval>, limit: int, lo: int, hi: int, open: int)
    requires lo <= hi && forall t :: lo <= t < hi ==> Open(intervals, t) == open
    ensures InstantsAbove(intervals, limit, lo, hi) == (if open > limit then hi - lo else 0)
    decreases hi - lo
  {
    if lo < hi {
      InstantsConstant(intervals, limit, lo, hi - 1, open);
    }
  }

  lemma FlatBetween(intervals: seq<Interval>, points: seq<Point>, k: nat, from: int, to: int)
    requires InOrder(points) && k <= |points| && forall t :: Balance(points, t) == Open(intervals, t)
    requires k > 0 ==> points[k - 1].time <= from
    requires k < |points| ==> to <= points[k].time
    ensures forall t :: from <= t < to ==> Open(intervals, t) == Sum(points[..k])
  {
    forall t | from <= t < to
      ensures Open(intervals, t) == Sum(points[..k])
    {
      PrefixIsBalance(points, k, t);
    }
  }

  lemma InTurn(points: seq<Point>, k: nat)
    requires InOrder(points) && k < |points|
    ensures k + 1 < |points| ==> points[k].time <= points[k + 1].time
  {
    assert k + 1 < |points| ==> Before(points[k], points[k + 1]);
  }

  /** Sorting keeps every point within the span of the intervals. */
  lemma PointsStayWithin(intervals: seq<Interval>, from: int, to: int)
    requires Forward(intervals) && Spans(intervals, from, to)
    ensures from <= to
    ensures var points := Sort(Points(intervals)); forall k :: 0 <= k < |points| ==> from <= points[k].time <= to
  {
    SortSorts(Points(intervals));
    PointsAreWithin(intervals, from, to);
    var points := Sort(Points(intervals));
    assert forall k :: 0 <= k < |points| ==> points[k] in Points(intervals);
  }

  lemma {:induction false} NoneOpen(intervals: seq<Interval>, t: int)
    requires forall i :: i in intervals ==> !Contains(i, t)
    ensures Open(intervals, t) == 0
  {
    if intervals != [] {
      NoneOpen(intervals[..|intervals| - 1], t);
    }
  }

  lemma NothingAfter(intervals: seq<Interval>, points: seq<Point>, reached: int, to: int)
    requires InOrder(points) && forall t :: Balance(points, t) == Open(intervals, t)
    requires points == Sort(Points(intervals)) && Forward(intervals)
    requires points != [] ==> reached == points[|points| - 1].time
    ensures forall t :: t >= reached ==> Open(intervals, t) == 0
  {
    SortSorts(Points(intervals));
    forall t | t >= reached
      ensures Open(intervals, t) == 0
    {
      forall i | i in intervals
        ensures !Contains(i, t)
      {
        EndIsPoint(intervals, i);
        var k :| 0 <= k < |points| && points[k] == Point(i.end, -1);
        assert k < |points| - 1 ==> Before(points[k], points[|points| - 1]);
      }
      NoneOpen(intervals, t);
    }
  }

  /** The number of integer instants at which the open intervals exceed the limit. */
  method TimeAbove(intervals: seq<Interval>, limit: int, ghost from: int, ghost to: int) returns (above: int)
    requires Forward(intervals) && limit >= 0 && Spans(intervals, from, to)
    ensures above == InstantsAbove(intervals, limit, from, to)
  {
    hide Sort, Points, InOrder, Units, Balance, Open, Forward, Insert, InstantsAbove, Spans;
    var points := Sort(Points(intervals));
    ghost var sorted := SortedPoints(intervals);
    PointsStayWithin(intervals, from, to);
    var current := 0;
    var last := 0;
    above := 0;
    ghost var reached := from;
    InstantsConstant(intervals, limit, from, from, 0);
    for k := 0 to |points|
      invariant current == Sum(points[..k])
      invariant k > 0 ==> last == reached == points[k - 1].time
      invariant k == 0 ==> reached == from
      invariant from <= reached <= to && (k < |points| ==> reached <= points[k].time)
      invariant above == InstantsAbove(intervals, limit, from, reached)
    {
      var p := points[k];
      InTurn(points, k);
      FlatBetween(intervals, points, k, reached, p.time);
      InstantsSplit(intervals, limit, from, reached, p.time);
      InstantsConstant(intervals, limit, reached, p.time, current);
      if k > 0 && current > limit {
        above := above + (p.time - last);
      }
      SumGrows(points, k);
      current := current + p.delta;
      last := p.time;
      reached := p.time;
    }
    assert points[..|points|] == points;
    NothingAfter(intervals, points, reached, to);
    InstantsSplit(intervals, limit, from, reached, to);
    InstantsConstant(intervals, limit, reached, to, 0);
  }
}
