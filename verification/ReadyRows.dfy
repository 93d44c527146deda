/**
 * Which rows the dispatcher is offered: what the ready query may answer, and that one seller's
 * backlog cannot hide another seller's oldest ready row.
 */
module ReadyRows {
  import opened Domain
  import opened InboxTables
  import opened PartnerDatabase

  // ---- the query

  function HeldSlots(permits: Permits, sellerId: SellerId, now: int): set<Slot> {
    set slot | slot in permits && slot.sellerId == sellerId && permits[slot].owner.Some?
      && permits[slot].leaseUntil >= now
  }

  /** The seller appears among those with as many held permits as there are; a seller without any never does. */
  predicate IsFull(permits: Permits, sellerId: SellerId, sellerPermits: int, now: int) {
    HeldSlots(permits, sellerId, now) != {} && |HeldSlots(permits, sellerId, now)| >= sellerPermits
  }

  datatype Query = Query(appNow: int, now: int, sellerPermits: int, skip: set<SellerId>, limit: nat)

  /** The ready rows of sellers that are neither full nor skipped. */
  function Candidates(t: Tables, q: Query): set<Row> {
    set id | id in t.inbox && IsReady(t.inbox, t.orders, id, q.appNow, q.now)
             && !IsFull(t.permits, t.inbox[id].event.sellerId, q.sellerPermits, q.now)
             && t.inbox[id].event.sellerId !in q.skip :: t.inbox[id]
  }

  function OfSeller(rows: set<Row>, sellerId: SellerId): set<Row> {
    set row | row in rows && row.event.sellerId == sellerId
  }

  predicate NotLater(a: Row, b: Row) {
    a.receivedAt < b.receivedAt || (a.receivedAt == b.receivedAt && a.offset <= b.offset)
  }

  function Min(a: int, b: int): int {
    if a < b then a else b
  }

  /** Each seller's first rows by arrival, as many as one seller may have listed; ties fall either way. */
  ghost predicate IsRanked(candidates: set<Row>, ranked: set<Row>, perSeller: int) {
    && ranked <= candidates
    && (forall sellerId :: |OfSeller(ranked, sellerId)| == Min(Max(perSeller, 0), |OfSeller(candidates, sellerId)|))
    && (forall a, b :: a in ranked && b in candidates && b !in ranked && a.event.sellerId == b.event.sellerId ==>
          NotLater(a, b))
  }

  /** The first rows of the ranked ones in arrival order, up to the limit. */
  ghost predicate IsListed(ranked: set<Row>, rows: seq<Row>, limit: nat) {
    && (forall i, j :: 0 <= i < j < |rows| ==> rows[i] != rows[j] && NotLater(rows[i], rows[j]))
    && (forall row :: row in rows ==> row in ranked)
    && |rows| == Min(limit, |ranked|)
    && (forall a, b :: a in rows && b in ranked && b !in rows ==> NotLater(a, b))
  }

  ghost predicate Answers(t: Tables, q: Query, rows: seq<Row>) {
    exists ranked :: IsRanked(Candidates(t, q), ranked, q.sellerPermits) && IsListed(ranked, rows, q.limit)
  }

  datatype Task = Task(event: Event, partition: int, offset: nat, attempts: nat, httpAttempts: nat, failures: nat)

  function TaskOf(row: Row): Task {
    Task(row.event, row.partition, row.offset, row.attempts, row.attempts, row.generation)
  }

  /** The task is that of a row that may be claimed now. */
  ghost predicate IsForCandidate(t: Tables, q: Query, task: Task) {
    exists row :: row in Candidates(t, q) && task == TaskOf(row)
  }

  lemma AnswerIsOfCandidates(t: Tables, q: Query, rows: seq<Row>)
    requires Answers(t, q, rows)
    ensures |rows| <= q.limit && forall i :: 0 <= i < |rows| ==> rows[i] in Candidates(t, q)
  {
    var ranked :| IsRanked(Candidates(t, q), ranked, q.sellerPermits) && IsListed(ranked, rows, q.limit);
    hide Candidates;
    assert forall i :: 0 <= i < |rows| ==> rows[i] in ranked;
  }

  /** Turns what the query answered into tasks; every earlier claim of a row counts as a failure. */
  method FindReady(rows: seq<Row>, ghost t: Tables, ghost q: Query) returns (tasks: seq<Task>)
    ensures |tasks| == |rows|
    ensures forall i :: 0 <= i < |rows| ==>
          tasks[i].event == rows[i].event && tasks[i].partition == rows[i].partition
            && tasks[i].offset == rows[i].offset
          && tasks[i].attempts == tasks[i].httpAttempts == rows[i].attempts && tasks[i].failures == rows[i].generation
    ensures Answers(t, q, rows) ==>
          |tasks| <= q.limit && forall i :: 0 <= i < |tasks| ==> IsForCandidate(t, q, tasks[i])
  {
    tasks := [];
    for i := 0 to |rows|
      invariant |tasks| == i && forall k :: 0 <= k < i ==> tasks[k] == TaskOf(rows[k])
    {
      var row := rows[i];
      tasks := tasks + [Task(row.event, row.partition, row.offset, row.attempts, row.attempts, row.generation)];
    }
    if Answers(t, q, rows) {
      AnswerIsOfCandidates(t, q, rows);
    }
  }

  // ---- no seller hides another

  /** The list names the seller of every row. */
  ghost predicate AreSellersOf(sellers: seq<SellerId>, rows: set<Row>) {
    forall row :: row in rows ==> exists i :: 0 <= i < |sellers| && sellers[i] == row.event.sellerId
  }

  /** Without one seller's rows, one seller fewer is needed to account for the rest. */
  lemma WithoutLastSeller(rows: set<Row>, sellers: seq<SellerId>)
    requires sellers != [] && AreSellersOf(sellers, rows)
    ensures AreSellersOf(sellers[..|sellers| - 1], rows - OfSeller(rows, sellers[|sellers| - 1]))
  {
    var n := |sellers| - 1;
    forall row | row in rows - OfSeller(rows, sellers[n])
      ensures exists i :: 0 <= i < n && sellers[..n][i] == row.event.sellerId
    {
      var i :| 0 <= i < |sellers| && sellers[i] == row.event.sellerId;
      assert i < n && sellers[..n][i] == row.event.sellerId;
    }
  }

  lemma FewerPerSeller(rows: set<Row>, others: set<Row>, perSeller: nat)
    requires others <= rows && forall s :: |OfSeller(rows, s)| <= perSeller
    ensures forall s :: |OfSeller(others, s)| <= perSeller
  {
    forall s
      ensures |OfSeller(others, s)| <= perSeller
    {
      SubsetIsSmaller(OfSeller(others, s), OfSeller(rows, s));
    }
  }

  lemma TwoParts(rows: set<Row>, mine: set<Row>)
    requires mine <= rows
    ensures |rows| == |rows - mine| + |mine|
  {
    assert rows == (rows - mine) + mine;
  }

  /** A few rows per seller are few rows in all. */
  lemma {:induction false} RowsPerSeller(rows: set<Row>, sellers: seq<SellerId>, perSeller: nat)
    requires AreSellersOf(sellers, rows) && forall s :: |OfSeller(rows, s)| <= perSeller
    ensures |rows| <= |sellers| * perSeller
  {
    if sellers == [] {
      assert rows == {};
    } else {
      var n := |sellers| - 1;
      var mine := OfSeller(rows, sellers[n]);
      assert mine <= rows;
      WithoutLastSeller(rows, sellers);
      FewerPerSeller(rows, rows - mine, perSeller);
      hide OfSeller, AreSellersOf;
      RowsPerSeller(rows - mine, sellers[..n], perSeller);
      TwoParts(rows, mine);
      assert |sellers| * perSeller == n * perSeller + perSeller;
    }
  }

  function Elements(rows: seq<Row>): set<Row> {
    set row | row in rows
  }

  lemma {:induction false} DistinctElements(rows: seq<Row>)
    requires forall i, j :: 0 <= i < j < |rows| ==> rows[i] != rows[j]
    ensures |Elements(rows)| == |rows|
  {
    if rows != [] {
      var n := |rows| - 1;
      DistinctElements(rows[..n]);
      assert rows == rows[..n] + [rows[n]];
      assert Elements(rows) == Elements(rows[..n]) + {rows[n]};
      assert rows[n] !in rows[..n];
    }
  }

  lemma {:induction false} Oldest(rows: set<Row>) returns (oldest: Row)
    requires rows != {}
    ensures oldest in rows && forall row :: row in rows ==> NotLater(oldest, row)
    decreases |rows|
  {
    var row :| row in rows;
    if rows == {row} {
      oldest := row;
    } else {
      assert rows == (rows - {row}) + {row};
      var other := Oldest(rows - {row});
      oldest := if NotLater(row, other) then row else other;
      assert forall r :: r in rows ==> r == row || r in rows - {row};
    }
  }

  /** When everything ranked fits the limit, everything ranked is listed. */
  lemma AllAreListed(ranked: set<Row>, rows: seq<Row>, limit: nat)
    requires IsListed(ranked, rows, limit) && |ranked| <= limit
    ensures Elements(rows) == ranked
  {
    DistinctElements(rows);
    SubsetIsSmaller(Elements(rows), ranked);
  }

  /** A seller's ranked rows hold one that none of its candidates is older than. */
  lemma FirstOfSeller(candidates: set<Row>, ranked: set<Row>, perSeller: int, row: Row) returns (first: Row)
    requires IsRanked(candidates, ranked, perSeller) && perSeller >= 1 && row in candidates
    ensures first in ranked && first.event.sellerId == row.event.sellerId
    ensures forall c :: c in OfSeller(candidates, row.event.sellerId) ==> NotLater(first, c)
  {
    var seller := row.event.sellerId;
    assert row in OfSeller(candidates, seller);
    var oldest := Oldest(OfSeller(candidates, seller));
    assert |OfSeller(ranked, seller)| >= 1;
    first :| first in OfSeller(ranked, seller);
    if oldest in ranked {
      first := oldest;
    }
    assert NotLater(first, oldest);
  }

  /**
   * If the eligible sellers times the permits fit the limit, then for every eligible seller the list
   * holds a row that none of its ready rows is older than.
   */
  lemma EverySellerIsListed(t: Tables, q: Query, rows: seq<Row>, sellers: seq<SellerId>, row: Row)
    requires Answers(t, q, rows) && q.sellerPermits >= 1
    requires AreSellersOf(sellers, Candidates(t, q)) && |sellers| * q.sellerPermits <= q.limit
    requires row in Candidates(t, q)
    ensures exists first :: first in rows && first.event.sellerId == row.event.sellerId
                         && forall c :: c in OfSeller(Candidates(t, q), row.event.sellerId) ==> NotLater(first, c)
  {
    var candidates, seller := Candidates(t, q), row.event.sellerId;
    var ranked :| IsRanked(candidates, ranked, q.sellerPermits) && IsListed(ranked, rows, q.limit);
    hide Candidates, IsListed, Answers;
    assert forall r :: r in ranked ==> r in candidates;
    assert AreSellersOf(sellers, ranked);
    RowsPerSeller(ranked, sellers, q.sellerPermits);
    AllAreListed(ranked, rows, q.limit);
    var first := FirstOfSeller(candidates, ranked, q.sellerPermits, row);
    assert first in Elements(rows);
  }

  /** No seller ever takes more than its permits of the list. */
  lemma ListIsFair(t: Tables, q: Query, rows: seq<Row>, sellerId: SellerId)
    requires Answers(t, q, rows)
    ensures |OfSeller(Elements(rows), sellerId)| <= Max(q.sellerPermits, 0)
  {
    var ranked :| IsRanked(Candidates(t, q), ranked, q.sellerPermits) && IsListed(ranked, rows, q.limit);
    SubsetIsSmaller(OfSeller(Elements(rows), sellerId), OfSeller(ranked, sellerId));
  }

  // ---- what is listed, and why the rest is not

  /** Earlier by arrival, then by offset. */
  predicate ArrivedBy(a: Row, b: Row) {
    if a.receivedAt == b.receivedAt then a.offset <= b.offset else a.receivedAt < b.receivedAt
  }

  /** The answer is in arrival order. */
  lemma ListedInOrder(t: Tables, q: Query, rows: seq<Row>, i: nat, j: nat)
    requires Answers(t, q, rows) && i < j < |rows|
    ensures rows[i] != rows[j] && ArrivedBy(rows[i], rows[j])
  {
    hide IsRanked, Candidates;
  }

  lemma UnrankedIsShort(candidates: set<Row>, ranked: set<Row>, perSeller: int, row: Row)
    requires IsRanked(candidates, ranked, perSeller) && row in candidates && row !in ranked
    ensures |OfSeller(ranked, row.event.sellerId)| == Max(perSeller, 0)
    ensures forall a :: a in OfSeller(ranked, row.event.sellerId) ==> NotLater(a, row)
  {
    var seller := row.event.sellerId;
    assert row in OfSeller(candidates, seller);
    SubsetIsSmaller(OfSeller(ranked, seller), OfSeller(candidates, seller));
  }

  lemma UnlistedIsFull(ranked: set<Row>, rows: seq<Row>, limit: nat, row: Row)
    requires IsListed(ranked, rows, limit) && row in ranked && row !in rows
    ensures |rows| == limit && forall a :: a in rows ==> NotLater(a, row)
  {
    DistinctElements(rows);
    SubsetIsSmaller(Elements(rows), ranked);
  }

  /**
   * A row that may be claimed is left out of an answer for one of two reasons only: the answer is as long as the
   * limit, or it holds as many rows of the row's seller as one seller may have; and none of those rows arrived
   * after it.
   */
  lemma UnlistedHasReason(t: Tables, q: Query, rows: seq<Row>, row: Row)
    requires Answers(t, q, rows) && row in Candidates(t, q) && row !in rows
    ensures var mine := OfSeller(Elements(rows), row.event.sellerId);
            || (|rows| == q.limit && forall a :: a in rows ==> ArrivedBy(a, row))
            || (|mine| == Max(q.sellerPermits, 0) && forall a :: a in mine ==> ArrivedBy(a, row))
  {
    var ranked :| IsRanked(Candidates(t, q), ranked, q.sellerPermits) && IsListed(ranked, rows, q.limit);
    hide Candidates, IsRanked;
    if row in ranked {
      UnlistedIsFull(ranked, rows, q.limit, row);
    } else {
      UnrankedIsShort(Candidates(t, q), ranked, q.sellerPermits, row);
      var others := OfSeller(ranked, row.event.sellerId);
      if b :| b in others && b !in rows {
        UnlistedIsFull(ranked, rows, q.limit, b);
      } else {
        assert forall a :: a in rows ==> a in ranked;
        assert OfSeller(Elements(rows), row.event.sellerId) == others;
      }
    }
  }

  // ---- there is always an answer

  predicate InArrivalOrder(rows: seq<Row>) {
    forall i, j :: 0 <= i < j < |rows| ==> rows[i] != rows[j] && NotLater(rows[i], rows[j])
  }

  lemma OldestFirst(oldest: Row, rest: set<Row>, later: seq<Row>)
    requires InArrivalOrder(later) && Elements(later) == rest && oldest !in rest
    requires forall row :: row in rest ==> NotLater(oldest, row)
    ensures InArrivalOrder([oldest] + later) && Elements([oldest] + later) == rest + {oldest}
  {
    hide NotLater;
    assert forall i :: 0 <= i < |later| ==> later[i] in Elements(later);
    assert forall row :: row in [oldest] + later <==> row == oldest || row in later;
  }

  lemma {:induction false} Sorted(rows: set<Row>) returns (sorted: seq<Row>)
    ensures InArrivalOrder(sorted) && Elements(sorted) == rows
    decreases |rows|
  {
    if rows == {} {
      sorted := [];
    } else {
      hide InArrivalOrder, Elements, NotLater;
      var oldest := Oldest(rows);
      var later := Sorted(rows - {oldest});
      OldestFirst(oldest, rows - {oldest}, later);
      sorted := [oldest] + later;
    }
  }

  /** The rows in turn, each unless its seller has had its number. */
  function Picked(rows: seq<Row>, perSeller: int): seq<Row> {
    if rows == [] then []
    else
      var before, row := Picked(rows[..|rows| - 1], perSeller), rows[|rows| - 1];
      if |OfSeller(Elements(before), row.event.sellerId)| < perSeller then before + [row] else before
  }

  lemma OneMoreElement(rows: seq<Row>, row: Row)
    ensures Elements(rows + [row]) == Elements(rows) + {row}
  {
  }

  lemma OneMoreOfSeller(rows: set<Row>, row: Row, sellerId: SellerId)
    requires row !in rows
    ensures OfSeller(rows + {row}, sellerId)
         == if row.event.sellerId == sellerId then OfSeller(rows, sellerId) + {row} else OfSeller(rows, sellerId)
    ensures |OfSeller(rows + {row}, sellerId)|
         == |OfSeller(rows, sellerId)| + if row.event.sellerId == sellerId then 1 else 0
  {
    assert row !in OfSeller(rows, sellerId);
  }

  /** A seller that has not had its number has had every row there is. */
  lemma ShortIsComplete(rows: set<Row>, picked: set<Row>, perSeller: int, sellerId: SellerId, row: Row)
    requires IsRanked(rows, picked, perSeller) && row in rows && row.event.sellerId == sellerId
    requires |OfSeller(picked, sellerId)| < perSeller
    ensures row in picked
  {
    var mine, all := OfSeller(picked, sellerId), OfSeller(rows, sellerId);
    if row !in picked {
      assert row in all && |all - {row}| == |all| - 1;
      SubsetIsSmaller(mine, all - {row});
    }
  }

  lemma NextKeepsCounts(rows: set<Row>, picked: set<Row>, perSeller: int, row: Row, sellerId: SellerId)
    requires row !in rows && picked <= rows
    requires |OfSeller(picked, sellerId)| == Min(Max(perSeller, 0), |OfSeller(rows, sellerId)|)
    ensures var after := if |OfSeller(picked, row.event.sellerId)| < perSeller then picked + {row} else picked;
            |OfSeller(after, sellerId)| == Min(Max(perSeller, 0), |OfSeller(rows + {row}, sellerId)|)
  {
    OneMoreOfSeller(rows, row, sellerId);
    OneMoreOfSeller(picked, row, sellerId);
    hide OfSeller;
  }

  lemma NextIsRanked(rows: set<Row>, picked: set<Row>, perSeller: int, row: Row)
    requires IsRanked(rows, picked, perSeller) && row !in rows && forall r :: r in rows ==> NotLater(r, row)
    ensures var short := |OfSeller(picked, row.event.sellerId)| < perSeller;
            IsRanked(rows + {row}, if short then picked + {row} else picked, perSeller)
  {
    hide OfSeller, NotLater;
    var short := |OfSeller(picked, row.event.sellerId)| < perSeller;
    var after := if short then picked + {row} else picked;
    forall sellerId
      ensures |OfSeller(after, sellerId)| == Min(Max(perSeller, 0), |OfSeller(rows + {row}, sellerId)|)
    {
      NextKeepsCounts(rows, picked, perSeller, row, sellerId);
    }
    hide Min, Max;
    forall a, b | a in after && b in rows + {row} && b !in after && a.event.sellerId == b.event.sellerId
      ensures NotLater(a, b)
    {
      if a == row && short {
        ShortIsComplete(rows, picked, perSeller, row.event.sellerId, b);
      }
    }
  }

  lemma OrderGoesOn(rows: seq<Row>, row: Row)
    requires InArrivalOrder(rows) && forall r :: r in rows ==> r != row && NotLater(r, row)
    ensures InArrivalOrder(rows + [row])
  {
    hide NotLater;
    assert forall i :: 0 <= i < |rows| ==> rows[i] in rows;
  }

  lemma LastIsLatest(rows: seq<Row>)
    requires rows != [] && InArrivalOrder(rows)
    ensures var n := |rows| - 1;
            && InArrivalOrder(rows[..n]) && rows[n] !in Elements(rows[..n])
            && forall r :: r in Elements(rows[..n]) ==> NotLater(r, rows[n])
    ensures Elements(rows) == Elements(rows[..|rows| - 1]) + {rows[|rows| - 1]}
  {
    hide NotLater;
    var n := |rows| - 1;
    assert rows == rows[..n] + [rows[n]];
    OneMoreElement(rows[..n], rows[n]);
  }

  lemma RankedAreCandidates(candidates: set<Row>, ranked: set<Row>, perSeller: int)
    requires IsRanked(candidates, ranked, perSeller)
    ensures ranked <= candidates
  {
  }

  lemma {:induction false} PickedIsRanked(rows: seq<Row>, perSeller: int)
    requires InArrivalOrder(rows)
    ensures IsRanked(Elements(rows), Elements(Picked(rows, perSeller)), perSeller)
    ensures InArrivalOrder(Picked(rows, perSeller))
  {
    if rows == [] {
      assert forall s :: OfSeller(Elements([]), s) == {};
    } else {
      hide IsRanked, OfSeller, NotLater, InArrivalOrder;
      var n := |rows| - 1;
      LastIsLatest(rows);
      PickedIsRanked(rows[..n], perSeller);
      var before := Picked(rows[..n], perSeller);
      NextIsRanked(Elements(rows[..n]), Elements(before), perSeller, rows[n]);
      OneMoreElement(before, rows[n]);
      RankedAreCandidates(Elements(rows[..n]), Elements(before), perSeller);
      assert forall r :: r in before ==> r in Elements(before);
      OrderGoesOn(before, rows[n]);
    }
  }

  /** What is beyond a prefix is not earlier than anything in it. */
  lemma PrefixIsFirst(rows: seq<Row>, n: nat)
    requires InArrivalOrder(rows) && n <= |rows|
    ensures forall a, b :: a in rows[..n] && b in rows && b !in rows[..n] ==> NotLater(a, b)
  {
    hide NotLater;
    assert forall k :: 0 <= k < n ==> rows[k] in rows[..n];
    forall a, b | a in rows[..n] && b in rows && b !in rows[..n]
      ensures NotLater(a, b)
    {
      var i :| 0 <= i < n && rows[i] == a;
      var j :| 0 <= j < |rows| && rows[j] == b;
    }
  }

  /** The first of the picked rows, as many as the limit takes. */
  lemma AnswerFrom(t: Tables, q: Query, sorted: seq<Row>) returns (rows: seq<Row>)
    requires InArrivalOrder(sorted) && Elements(sorted) == Candidates(t, q)
    ensures Answers(t, q, rows)
    ensures var picked := Picked(sorted, q.sellerPermits); rows == picked[..Min(q.limit, |picked|)]
  {
    hide Candidates, IsRanked;
    PickedIsRanked(sorted, q.sellerPermits);
    var picked := Picked(sorted, q.sellerPermits);
    DistinctElements(picked);
    var n := Min(q.limit, |picked|);
    PrefixIsFirst(picked, n);
    rows := picked[..n];
    assert IsListed(Elements(picked), rows, q.limit);
  }

  /** Whatever the tables hold, the query has an answer. */
  lemma QueryHasAnswer(t: Tables, q: Query) returns (rows: seq<Row>)
    ensures Answers(t, q, rows)
  {
    hide Candidates, Answers;
    var sorted := Sorted(Candidates(t, q));
    rows := AnswerFrom(t, q, sorted);
  }

  // ---- a listed row can be claimed

  lemma {:induction false} AllHeld(permits: Permits, sellerId: SellerId, n: nat, now: int)
    requires forall m :: 1 <= m <= n ==> Slot(sellerId, m) in permits && !IsFree(permits, Slot(sellerId, m), now)
    ensures |set m: int | 1 <= m <= n :: Slot(sellerId, m)| == n
    ensures (set m: int | 1 <= m <= n :: Slot(sellerId, m)) <= HeldSlots(permits, sellerId, now)
  {
    var slots := set m: int | 1 <= m <= n :: Slot(sellerId, m);
    if n == 0 {
      assert slots == {};
    } else {
      AllHeld(permits, sellerId, n - 1, now);
      assert slots == (set m: int | 1 <= m <= n - 1 :: Slot(sellerId, m)) + {Slot(sellerId, n)};
    }
  }

  lemma FreshPermitsAreFree(permits: Permits, sellerId: SellerId, count: nat, now: int)
    ensures HeldSlots(WithPermits(permits, sellerId, count), sellerId, now) == HeldSlots(permits, sellerId, now)
  {
  }

  lemma NoFreeSlotIsFull(permits: Permits, sellerId: SellerId, count: nat, now: int)
    requires count >= 1
    ensures FirstFree(WithPermits(permits, sellerId, count), sellerId, 1, count, now) == None ==>
          IsFull(permits, sellerId, count, now)
  {
    var ensured := WithPermits(permits, sellerId, count);
    if FirstFree(ensured, sellerId, 1, count, now) == None {
      AllHeld(ensured, sellerId, count, now);
      FreshPermitsAreFree(permits, sellerId, count, now);
      SubsetIsSmaller(set m: int | 1 <= m <= count :: Slot(sellerId, m), HeldSlots(permits, sellerId, now));
    }
  }

  /**
   * A row that was listed can still be claimed while the tables and the clock stand still: the only
   * answer besides a granted claim is that the retry budget is spent.
   */
  lemma ListedIsClaimable(t: Tables, q: Query, rows: seq<Row>, row: Row, limits: Limits, at: ClaimClock)
    requires Answers(t, q, rows) && row in rows && q.sellerPermits == limits.sellerPermits >= 1
    requires forall id :: id in t.inbox ==> t.inbox[id].event.eventId == id
    requires at.permits == at.row == q.now
    ensures var permits := WithPermits(t.permits, row.event.sellerId, limits.sellerPermits);
            ClaimEnds(t.inbox, permits, t.admissions, t.orders, row.event, limits, at, q.appNow, false) in {Claimed,
              RetryBudget}
  {
    var seller := row.event.sellerId;
    var permits := WithPermits(t.permits, seller, limits.sellerPermits);
    var ranked :| IsRanked(Candidates(t, q), ranked, q.sellerPermits) && IsListed(ranked, rows, q.limit);
    assert row in Candidates(t, q);
    NoFreeSlotIsFull(t.permits, seller, limits.sellerPermits, q.now);
  }

  // ---- a row that can be claimed may be listed

  /** No slot of the seller has a number beyond the permits. */
  ghost predicate AreNumbered(permits: Permits, sellerId: SellerId, count: nat) {
    forall slot :: slot in permits && slot.sellerId == sellerId ==> 1 <= slot.number <= count
  }

  lemma {:induction false} AllSlots(sellerId: SellerId, count: nat)
    ensures |set m: int | 1 <= m <= count :: Slot(sellerId, m)| == count
  {
    var slots := set m: int | 1 <= m <= count :: Slot(sellerId, m);
    if count == 0 {
      assert slots == {};
    } else {
      AllSlots(sellerId, count - 1);
      assert slots == (set m: int | 1 <= m <= count - 1 :: Slot(sellerId, m)) + {Slot(sellerId, count)};
    }
  }

  /** With one slot free, the seller is not full. */
  lemma FreeSlotIsNotFull(permits: Permits, sellerId: SellerId, count: nat, now: int, free: int)
    requires AreNumbered(permits, sellerId, count) && 1 <= free <= count
    requires IsFree(WithPermits(permits, sellerId, count), Slot(sellerId, free), now)
    ensures !IsFull(permits, sellerId, count, now)
  {
    var all := set m: int | 1 <= m <= count :: Slot(sellerId, m);
    AllSlots(sellerId, count);
    var held := HeldSlots(permits, sellerId, now);
    assert Slot(sellerId, free) !in held;
    assert Slot(sellerId, free) in all;
    SubsetIsSmaller(held, all - {Slot(sellerId, free)});
  }

  /**
   * While the tables and the clock stand still, the rows that the query may list are exactly those whose claim
   * would be granted or meet a spent retry budget, apart from those of skipped sellers.
   */
  lemma CandidateExactlyWhenClaimable(t: Tables, q: Query, id: EventId, limits: Limits, at: ClaimClock)
    requires id in t.inbox && t.inbox[id].event.eventId == id && q.sellerPermits == limits.sellerPermits >= 1
    requires AreNumbered(t.permits, t.inbox[id].event.sellerId, limits.sellerPermits)
    requires at.permits == at.row == q.now
    ensures var e := t.inbox[id].event;
            var permits := WithPermits(t.permits, e.sellerId, limits.sellerPermits);
            t.inbox[id] in Candidates(t, q) <==>
              && e.sellerId !in q.skip
              && ClaimEnds(t.inbox, permits, t.admissions, t.orders, e, limits, at, q.appNow, false)
                 in {Claimed, RetryBudget}
  {
    var row := t.inbox[id];
    var seller := row.event.sellerId;
    var free := FirstFree(WithPermits(t.permits, seller, limits.sellerPermits), seller, 1, limits.sellerPermits, q.now);
    hide HeldSlots, IsFull, FirstFree, WithPermits, CountSince;
    if free.Some? {
      FreeSlotIsNotFull(t.permits, seller, limits.sellerPermits, q.now, free.value);
    } else {
      NoFreeSlotIsFull(t.permits, seller, limits.sellerPermits, q.now);
    }
    if row in Candidates(t, q) {
      var i :| i in t.inbox && t.inbox[i] == row && IsReady(t.inbox, t.orders, i, q.appNow, q.now)
        && !IsFull(t.permits, seller, q.sellerPermits, q.now) && seller !in q.skip;
    }
  }

  /** None of the candidates has arrived before the row. */
  ghost predicate IsOldest(candidates: set<Row>, row: Row) {
    row in candidates && forall r :: r in candidates ==> NotLater(row, r)
  }

  lemma {:induction false} FirstIsPicked(row: Row, rest: seq<Row>, perSeller: int)
    requires perSeller >= 1
    ensures Picked([row] + rest, perSeller) != [] && Picked([row] + rest, perSeller)[0] == row
  {
    var all := [row] + rest;
    if rest == [] {
      assert all[..0] == [] && OfSeller(Elements([]), row.event.sellerId) == {};
      assert Picked([], perSeller) == [];
      assert Picked(all, perSeller) == [row];
    } else {
      var n := |rest| - 1;
      assert all[..|all| - 1] == [row] + rest[..n];
      FirstIsPicked(row, rest[..n], perSeller);
    }
  }

  /** Whatever the limit, some answer lists the row. */
  lemma OldestMayBeListed(t: Tables, q: Query, row: Row) returns (rows: seq<Row>)
    requires IsOldest(Candidates(t, q), row) && q.sellerPermits >= 1 && q.limit >= 1
    ensures Answers(t, q, rows) && row in rows
  {
    hide Candidates, IsRanked, Picked, NotLater, Elements, InArrivalOrder;
    var candidates := Candidates(t, q);
    var rest := Sorted(candidates - {row});
    OldestFirst(row, candidates - {row}, rest);
    assert candidates - {row} + {row} == candidates;
    rows := AnswerFrom(t, q, [row] + rest);
    FirstIsPicked(row, rest, q.sellerPermits);
    assert rows[0] == row;
  }
}
