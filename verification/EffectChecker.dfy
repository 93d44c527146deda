/**
 * The end-of-run comparison of the seller's effects and both order tables with the planned input, and
 * what it means that it finds nothing to report.
 */
module EffectChecker {
  import opened Domain
  import opened SellerApi

  /** A row of the seller's effect table; the payload may be missing or unreadable. */
  datatype EffectRow = EffectRow(event: Event, payload: Option<Event>)

  /** A row of an order table. */
  datatype FinalRow = FinalRow(key: OrderKey, latest: OrderRow)

  datatype Remote = Remote(effects: seq<EffectRow>, orders: seq<FinalRow>, statuses: seq<Option<int>>)

  datatype Finding =
    | DuplicateInput
    | EffectCount(id: EventId, count: nat)
    | Unexpected(id: EventId)
    | ExternalMismatch(id: EventId)
    | SerializedMismatch(id: EventId)
    | OrderViolation(key: OrderKey)
    | LedgerIdsDiffer
    | LedgerMismatch(id: EventId)
    | FinalKeysDiffer
    | FinalMismatch(key: OrderKey)
    | Rejected

  // ---- what is counted, grouped and sorted

  function CountOf(rows: seq<Event>, id: EventId): nat {
    if rows == [] then 0
    else CountOf(rows[..|rows| - 1], id) + if rows[|rows| - 1].eventId == id then 1 else 0
  }

  /** The input by event id; a repeated id keeps its last entry. */
  function ById(expected: seq<Event>): map<EventId, Event> {
    if expected == [] then map[]
    else var e := expected[|expected| - 1]; ById(expected[..|expected| - 1])[e.eventId := e]
  }

  /** The operation with the highest sequence of every order; the first one of a tie. */
  function Finals(expected: seq<Event>): map<OrderKey, Event> {
    if expected == [] then map[]
    else
      var rest, e := Finals(expected[..|expected| - 1]), expected[|expected| - 1];
      if e.Key() !in rest || rest[e.Key()].sequence < e.sequence then rest[e.Key() := e] else rest
  }

  /** An order table by key; the last row of a key wins. */
  function ByKey(rows: seq<FinalRow>): map<OrderKey, OrderRow> {
    if rows == [] then map[]
    else ByKey(rows[..|rows| - 1])[rows[|rows| - 1].key := rows[|rows| - 1].latest]
  }

  function Events(rows: seq<EffectRow>): seq<Event> {
    if rows == [] then [] else Events(rows[..|rows| - 1]) + [rows[|rows| - 1].event]
  }

  function Insert(n: int, sorted: seq<int>): seq<int> {
    if sorted == [] || n <= sorted[0] then [n] + sorted else [sorted[0]] + Insert(n, sorted[1..])
  }

  function Sorted(s: seq<int>): seq<int> {
    if s == [] then [] else Insert(s[|s| - 1], Sorted(s[..|s| - 1]))
  }

  // ---- what the checker demands, without saying how it looks for it

  predicate DistinctIds(expected: seq<Event>) {
    forall i, j :: 0 <= i < j < |expected| ==> expected[i].eventId != expected[j].eventId
  }

  /** Every planned event is in the rows exactly once, and nothing else is. */
  ghost predicate ExactlyOnce(expected: seq<Event>, rows: seq<Event>) {
    forall id :: CountOf(rows, id) == if id in ById(expected) then 1 else 0
  }

  /** Every row carries the planned content of its event, run id aside. */
  predicate SameContent(a: Event, b: Event) {
    a.sellerId == b.sellerId && a.orderId == b.orderId && a.sequence == b.sequence
    && a.operation == b.operation && a.quantity == b.quantity && a.price == b.price
  }

  predicate ContentOk(expected: seq<Event>, remote: seq<EffectRow>, ledger: seq<Event>) {
    var plan := ById(expected);
    && (forall row :: row in remote && row.event.eventId in plan ==>
          SameContent(row.event, plan[row.event.eventId]) && row.payload == Some(plan[row.event.eventId]))
    && (forall row :: row in ledger && row.eventId in plan ==>
          SameContent(row, plan[row.eventId]) && row.runId == plan[row.eventId].runId)
  }

  /** The seller's effects of an order come in ascending sequence, and are the planned ones. */
  ghost predicate OrderOk(expected: seq<Event>, effects: seq<Event>) {
    forall e :: e in effects ==> SequencesOf(effects, e.Key()) == Sorted(SequencesOf(expected, e.Key()))
  }

  predicate FinalsOk(expected: seq<Event>, rows: seq<FinalRow>) {
    && ByKey(rows).Keys == Finals(expected).Keys
    && forall key :: key in Finals(expected) && key in ByKey(rows) ==>
          ByKey(rows)[key] == Finals(expected)[key].Latest()
  }

  ghost predicate Accepts(expected: seq<Event>, remote: Remote, ledger: seq<Event>, orders: seq<FinalRow>) {
    && DistinctIds(expected)
    && ExactlyOnce(expected, Events(remote.effects))
    && ExactlyOnce(expected, ledger)
    && ContentOk(expected, remote.effects, ledger)
    && OrderOk(expected, Events(remote.effects))
    && FinalsOk(expected, remote.orders)
    && FinalsOk(expected, orders)
    && Some(CONFLICT) !in remote.statuses
  }

  // ---- the checker

  lemma ByIdKeys(expected: seq<Event>)
    ensures forall id :: id in ById(expected) <==> exists e :: e in expected && e.eventId == id
    ensures forall id :: id in ById(expected) ==> ById(expected)[id] in expected && ById(expected)[id].eventId == id
  {
    if expected != [] {
      ByIdKeys(expected[..|expected| - 1]);
      assert expected == expected[..|expected| - 1] + [expected[|expected| - 1]];
    }
  }

  lemma ByIdAppend(rest: seq<Event>, e: Event)
    ensures ById(rest + [e]).Keys == ById(rest).Keys + {e.eventId}
  {
    assert (rest + [e])[..|rest|] == rest;
  }

  lemma KeysWith(keys: set<EventId>, id: EventId)
    ensures |keys + {id}| == |keys| + (if id in keys then 0 else 1)
  {
    assert id in keys ==> keys + {id} == keys;
  }

  lemma OneMoreId(rest: seq<Event>, e: Event)
    ensures DistinctIds(rest + [e]) <==> DistinctIds(rest) && !exists d :: d in rest && d.eventId == e.eventId
  {
    var all := rest + [e];
    if DistinctIds(all) {
      assert forall i :: 0 <= i < |rest| ==> all[i] == rest[i];
      forall d | d in rest
        ensures d.eventId != e.eventId
      {
        var i :| 0 <= i < |rest| && rest[i] == d;
        assert all[i].eventId != all[|rest|].eventId;
      }
    }
  }

  /** The index is as long as the input exactly when no id repeats. */
  lemma {:induction false} ByIdSize(expected: seq<Event>)
    ensures |ById(expected)| <= |expected|
    ensures |ById(expected)| == |expected| <==> DistinctIds(expected)
  {
    if expected != [] {
      var rest, e := expected[..|expected| - 1], expected[|expected| - 1];
      ByIdSize(rest);
      ByIdKeys(rest);
      ByIdAppend(rest, e);
      assert expected == rest + [e];
      hide ById, DistinctIds;
      OneMoreId(rest, e);
      KeysWith(ById(rest).Keys, e.eventId);
    }
  }

  lemma CountPositive(rows: seq<Event>, id: EventId)
    ensures CountOf(rows, id) > 0 <==> exists e :: e in rows && e.eventId == id
  {
    if rows != [] {
      CountPositive(rows[..|rows| - 1], id);
      assert rows == rows[..|rows| - 1] + [rows[|rows| - 1]];
    }
  }

  method CheckInput(expected: seq<Event>) returns (plan: map<EventId, Event>, errors: seq<Finding>)
    ensures plan == ById(expected)
    ensures errors == [] <==> DistinctIds(expected)
  {
    plan := map[];
    for i := 0 to |expected|
      invariant plan == ById(expected[..i])
    {
      assert expected[..i + 1][..i] == expected[..i];
      plan := plan[expected[i].eventId := expected[i]];
    }
    assert expected[..|expected|] == expected;
    ByIdSize(expected);
    errors := if |plan| != |expected| then [DuplicateInput] else [];
  }

  method Count(rows: seq<Event>) returns (count: map<EventId, nat>)
    ensures forall id :: CountOf(rows, id) == if id in count then count[id] else 0
    ensures forall id :: id in count ==> count[id] > 0
  {
    count := map[];
    for i := 0 to |rows|
      invariant forall id :: CountOf(rows[..i], id) == if id in count then count[id] else 0
      invariant forall id :: id in count ==> count[id] > 0
    {
      assert rows[..i + 1][..i] == rows[..i];
      var id := rows[i].eventId;
      count := count[id := (if id in count then count[id] else 0) + 1];
    }
    assert rows[..|rows|] == rows;
  }

  method CheckPlanned(expected: seq<Event>, count: map<EventId, nat>) returns (errors: seq<Finding>)
    ensures errors == [] <==> forall e :: e in expected ==> e.eventId in count && count[e.eventId] == 1
  {
    errors := [];
    for i := 0 to |expected|
      invariant errors == []
            <==> forall j :: 0 <= j < i ==> expected[j].eventId in count && count[expected[j].eventId] == 1
    {
      var id := expected[i].eventId;
      var n := if id in count then count[id] else 0;
      if n != 1 {
        errors := errors + [EffectCount(id, n)];
      }
    }
  }

  method CheckUnplanned(plan: map<EventId, Event>, rows: seq<Event>) returns (errors: seq<Finding>)
    ensures errors == [] <==> forall e :: e in rows ==> e.eventId in plan
  {
    errors := [];
    for i := 0 to |rows|
      invariant errors == [] <==> forall j :: 0 <= j < i ==> rows[j].eventId in plan
    {
      if rows[i].eventId !in plan {
        errors := errors + [Unexpected(rows[i].eventId)];
      }
    }
  }

  method CheckCounts(expected: seq<Event>, plan: map<EventId, Event>, rows: seq<Event>) returns (errors: seq<Finding>)
    requires plan == ById(expected)
    ensures errors == [] <==> ExactlyOnce(expected, rows)
  {
    var count := Count(rows);
    var planned := CheckPlanned(expected, count);
    var unplanned := CheckUnplanned(plan, rows);
    errors := planned + unplanned;
    ByIdKeys(expected);
    forall id
      ensures CountOf(rows, id) > 0 <==> exists e :: e in rows && e.eventId == id
    {
      CountPositive(rows, id);
    }
    assert forall e :: e in expected ==> e.eventId in plan;
  }

  method CheckContent(
    expected: seq<Event>, plan: map<EventId, Event>, remote: seq<EffectRow>, ledger: seq<Event>)
    returns (errors: seq<Finding>)
    requires plan == ById(expected)
    ensures errors == [] <==> ContentOk(expected, remote, ledger)
  {
    errors := [];
    for i := 0 to |remote|
      invariant errors == [] <==> ContentOk(expected, remote[..i], [])
    {
      var row := remote[i];
      if row.event.eventId in plan {
        if !SameContent(row.event, plan[row.event.eventId]) {
          errors := errors + [ExternalMismatch(row.event.eventId)];
        }
        if row.payload != Some(plan[row.event.eventId]) {
          errors := errors + [SerializedMismatch(row.event.eventId)];
        }
      }
      assert remote[..i + 1] == remote[..i] + [row];
    }
    assert remote[..|remote|] == remote;
    for i := 0 to |ledger|
      invariant errors == [] <==> ContentOk(expected, remote, ledger[..i])
    {
      var row := ledger[i];
      if row.eventId in plan && !(SameContent(row, plan[row.eventId]) && row.runId == plan[row.eventId].runId) {
        errors := errors + [LedgerMismatch(row.eventId)];
      }
      assert ledger[..i + 1] == ledger[..i] + [row];
    }
    assert ledger[..|ledger|] == ledger;
  }

  method Group(rows: seq<Event>) returns (grouped: map<OrderKey, seq<int>>)
    ensures forall key :: SequencesOf(rows, key) == if key in grouped then grouped[key] else []
    ensures forall key :: key in grouped <==> exists e :: e in rows && e.Key() == key
  {
    grouped := map[];
    for i := 0 to |rows|
      invariant forall key :: SequencesOf(rows[..i], key) == if key in grouped then grouped[key] else []
      invariant forall key :: key in grouped <==> exists e :: e in rows[..i] && e.Key() == key
    {
      assert rows[..i + 1][..i] == rows[..i];
      assert rows[..i + 1] == rows[..i] + [rows[i]];
      var key := rows[i].Key();
      grouped := grouped[key := (if key in grouped then grouped[key] else []) + [rows[i].sequence]];
    }
    assert rows[..|rows|] == rows;
  }

  method CheckOrder(expected: seq<Event>, effects: seq<Event>) returns (errors: seq<Finding>)
    ensures errors == [] <==> OrderOk(expected, effects)
  {
    var grouped := Group(effects);
    errors := [];
    var todo := grouped.Keys;
    while todo != {}
      invariant todo <= grouped.Keys
      invariant errors == []
            <==> forall key :: key in grouped && key !in todo ==> grouped[key] == Sorted(SequencesOf(expected, key))
      decreases |todo|
    {
      var key :| key in todo;
      if grouped[key] != Sorted(SequencesOf(expected, key)) {
        errors := errors + [OrderViolation(key)];
      }
      todo := todo - {key};
    }
    forall e | e in effects
      ensures e.Key() in grouped && SequencesOf(effects, e.Key()) == grouped[e.Key()]
    {
    }
  }

  method CheckFinals(expected: seq<Event>, rows: seq<FinalRow>) returns (errors: seq<Finding>)
    ensures errors == [] <==> FinalsOk(expected, rows)
  {
    var latest: map<OrderKey, Event> := map[];
    for i := 0 to |expected|
      invariant latest == Finals(expected[..i])
    {
      assert expected[..i + 1][..i] == expected[..i];
      var e := expected[i];
      if e.Key() !in latest || latest[e.Key()].sequence < e.sequence {
        latest := latest[e.Key() := e];
      }
    }
    assert expected[..|expected|] == expected;
    var actual: map<OrderKey, OrderRow> := map[];
    for i := 0 to |rows|
      invariant actual == ByKey(rows[..i])
    {
      assert rows[..i + 1][..i] == rows[..i];
      actual := actual[rows[i].key := rows[i].latest];
    }
    assert rows[..|rows|] == rows;
    errors := if actual.Keys != latest.Keys then [FinalKeysDiffer] else [];
    var todo := latest.Keys;
    while todo != {}
      invariant todo <= latest.Keys
      invariant errors == []
            <==> (&& actual.Keys == latest.Keys
                  && forall key :: key in latest && key !in todo && key in actual ==>
                        actual[key] == latest[key].Latest())
      decreases |todo|
    {
      var key :| key in todo;
      if key in actual && actual[key] != latest[key].Latest() {
        errors := errors + [FinalMismatch(key)];
      }
      todo := todo - {key};
    }
  }

  /** The checker passes a run exactly when it is acceptable. */
  method Check(
    expected: seq<Event>, remote: Remote, ledger: seq<Event>, orders: seq<FinalRow>) returns (errors: seq<Finding>)
    ensures errors == [] <==> Accepts(expected, remote, ledger, orders)
  {
    var plan, input := CheckInput(expected);
    var counts := CheckCounts(expected, plan, Events(remote.effects));
    var content := CheckContent(expected, plan, remote.effects, ledger);
    var order := CheckOrder(expected, Events(remote.effects));
    var internal := CheckCounts(expected, plan, ledger);
    if internal != [] {
      internal := [LedgerIdsDiffer];
    }
    var external := CheckFinals(expected, remote.orders);
    var business := CheckFinals(expected, orders);
    var rejected := if Some(CONFLICT) in remote.statuses then [Rejected] else [];
    errors := input + counts + content + order + internal + external + business + rejected;
  }

  // ---- what an accepted run leaves open

  /** Two rows of the effect table agree, the run and the moment of the request aside. */
  predicate AgreeAsEffects(a: EffectRow, b: EffectRow) {
    && a.event.sellerId == b.event.sellerId && a.event.orderId == b.event.orderId
    && a.event.sequence == b.event.sequence && a.event.operation == b.event.operation
    && a.event.quantity == b.event.quantity && a.event.price == b.event.price
    && a.payload == b.payload && a.payload.Some?
  }

  predicate AgreeAsLedger(a: Event, b: Event) {
    && a.runId == b.runId && a.sellerId == b.sellerId && a.orderId == b.orderId && a.sequence == b.sequence
    && a.operation == b.operation && a.quantity == b.quantity && a.price == b.price
  }

  lemma {:induction false} EventsAre(rows: seq<EffectRow>, i: nat)
    requires i < |rows|
    ensures |Events(rows)| == |rows| && Events(rows)[i] == rows[i].event
  {
    if i < |rows| - 1 {
      EventsAre(rows[..|rows| - 1], i);
    } else if |rows| > 1 {
      EventsAre(rows[..|rows| - 1], i - 1);
    }
  }

  lemma {:induction false} PresentIsCounted(rows: seq<Event>, i: nat)
    requires i < |rows|
    ensures CountOf(rows, rows[i].eventId) > 0
  {
    if i < |rows| - 1 {
      PresentIsCounted(rows[..|rows| - 1], i);
    }
  }

  lemma AcceptedIsPlanned(expected: seq<Event>, rows: seq<Event>, i: nat)
    requires ExactlyOnce(expected, rows) && i < |rows|
    ensures rows[i].eventId in ById(expected)
  {
    PresentIsCounted(rows, i);
    assert CountOf(rows, rows[i].eventId) == if rows[i].eventId in ById(expected) then 1 else 0;
  }

  /** The rows of an accepted run are those of the plan: any two accepted runs of it have the same ones. */
  lemma RowsAgree(
    expected: seq<Event>, a: Remote, b: Remote, ledgerA: seq<Event>, ledgerB: seq<Event>, ordersA: seq<FinalRow>,
    ordersB: seq<FinalRow>)
    requires Accepts(expected, a, ledgerA, ordersA) && Accepts(expected, b, ledgerB, ordersB)
    ensures forall i, j :: 0 <= i < |a.effects| && 0 <= j < |b.effects| ==>
              a.effects[i].event.eventId == b.effects[j].event.eventId ==> AgreeAsEffects(a.effects[i], b.effects[j])
    ensures forall i, j :: 0 <= i < |ledgerA| && 0 <= j < |ledgerB| && ledgerA[i].eventId == ledgerB[j].eventId ==>
              AgreeAsLedger(ledgerA[i], ledgerB[j])
  {
    hide ById, OrderOk, FinalsOk, CountOf;
    forall i, j | 0 <= i < |a.effects| && 0 <= j < |b.effects|
      && a.effects[i].event.eventId == b.effects[j].event.eventId
      ensures AgreeAsEffects(a.effects[i], b.effects[j])
    {
      EventsAre(a.effects, i);
      AcceptedIsPlanned(expected, Events(a.effects), i);
      assert a.effects[i] in a.effects && b.effects[j] in b.effects;
    }
    forall i, j | 0 <= i < |ledgerA| && 0 <= j < |ledgerB| && ledgerA[i].eventId == ledgerB[j].eventId
      ensures AgreeAsLedger(ledgerA[i], ledgerB[j])
    {
      AcceptedIsPlanned(expected, ledgerA, i);
      assert ledgerA[i] in ledgerA && ledgerB[j] in ledgerB;
    }
  }

  lemma {:induction false} FinalsHaveKeys(expected: seq<Event>, key: OrderKey)
    ensures key in Finals(expected) ==> Finals(expected)[key].Key() == key && Finals(expected)[key] in expected
    ensures key in Finals(expected) <==> exists i :: 0 <= i < |expected| && expected[i].Key() == key
    ensures key in Finals(expected) ==>
              forall i :: 0 <= i < |expected| && expected[i].Key() == key ==>
                expected[i].sequence <= Finals(expected)[key].sequence
  {
    if expected != [] {
      var n := |expected| - 1;
      FinalsHaveKeys(expected[..n], key);
      assert expected == expected[..n] + [expected[n]];
      assert forall i :: 0 <= i < n ==> expected[..n][i] == expected[i];
      if exists i :: 0 <= i < n && expected[i].Key() == key {
        var i :| 0 <= i < n && expected[i].Key() == key;
        assert expected[..n][i].Key() == key;
      }
    }
  }

  predicate IsPlanned(expected: seq<Event>, id: EventId) {
    exists i :: 0 <= i < |expected| && expected[i].eventId == id
  }

  lemma CountsAreThePlan(expected: seq<Event>, rows: seq<Event>, id: EventId)
    requires ExactlyOnce(expected, rows)
    ensures CountOf(rows, id) == if IsPlanned(expected, id) then 1 else 0
  {
    ByIdKeys(expected);
    hide ById, CountOf;
    assert forall e :: e in expected ==> exists i :: 0 <= i < |expected| && expected[i] == e;
    assert CountOf(rows, id) == if id in ById(expected) then 1 else 0;
  }

  /** The row is that of the order's operation that was planned last. */
  predicate IsLastPlanned(expected: seq<Event>, key: OrderKey, row: OrderRow) {
    exists i :: 0 <= i < |expected| && expected[i].Key() == key
      && (forall j :: 0 <= j < |expected| && expected[j].Key() == key ==> expected[j].sequence <= expected[i].sequence)
      && row == OrderRow(expected[i].sequence, expected[i].operation, expected[i].quantity, expected[i].price)
  }

  lemma FinalsAreThePlan(expected: seq<Event>, rows: seq<FinalRow>, key: OrderKey)
    requires FinalsOk(expected, rows)
    ensures key in ByKey(rows) <==> exists i :: 0 <= i < |expected| && expected[i].Key() == key
    ensures key in ByKey(rows) ==> IsLastPlanned(expected, key, ByKey(rows)[key])
  {
    FinalsHaveKeys(expected, key);
    hide ByKey, Finals;
    assert key in ByKey(rows) <==> key in ByKey(rows).Keys;
    if key in ByKey(rows) {
      var last := Finals(expected)[key];
      var i :| 0 <= i < |expected| && expected[i] == last;
      assert ByKey(rows)[key] == last.Latest();
    }
  }

  lemma TablesAgree(expected: seq<Event>, a: seq<FinalRow>, b: seq<FinalRow>)
    requires FinalsOk(expected, a) && FinalsOk(expected, b)
    ensures ByKey(a) == ByKey(b)
  {
    hide ByKey, Finals;
    assert forall key :: key in ByKey(a) ==> key in Finals(expected).Keys && key in ByKey(b).Keys;
  }

  lemma AcceptedIs(expected: seq<Event>, remote: Remote, ledger: seq<Event>, orders: seq<FinalRow>)
    requires Accepts(expected, remote, ledger, orders)
    ensures ExactlyOnce(expected, Events(remote.effects)) && ExactlyOnce(expected, ledger)
    ensures FinalsOk(expected, remote.orders) && FinalsOk(expected, orders) && Some(409) !in remote.statuses
    ensures OrderOk(expected, Events(remote.effects))
  {
    hide ExactlyOnce, OrderOk, ContentOk, FinalsOk;
  }

  predicate Ascending(s: seq<int>) {
    forall i, j :: 0 <= i < j < |s| ==> s[i] <= s[j]
  }

  lemma {:induction false} InsertAscends(n: int, sorted: seq<int>)
    requires Ascending(sorted)
    ensures Ascending(Insert(n, sorted)) && Insert(n, sorted) != []
    ensures Insert(n, sorted)[0] == if sorted == [] || n <= sorted[0] then n else sorted[0]
  {
    if sorted != [] && n > sorted[0] {
      InsertAscends(n, sorted[1..]);
      var rest := Insert(n, sorted[1..]);
      assert Insert(n, sorted) == [sorted[0]] + rest;
      assert sorted[0] <= rest[0];
      assert forall k :: 0 <= k < |rest| ==> rest[0] <= rest[k];
    }
  }

  lemma {:induction false} SortedAscends(s: seq<int>)
    ensures Ascending(Sorted(s))
  {
    if s != [] {
      SortedAscends(s[..|s| - 1]);
      InsertAscends(s[|s| - 1], Sorted(s[..|s| - 1]));
    }
  }

  /** The operations of an order come in the order of their sequences. */
  predicate InSequence(events: seq<Event>, key: OrderKey) {
    forall i, j :: 0 <= i < j < |events| && events[i].Key() == key && events[j].Key() == key ==>
      events[i].sequence <= events[j].sequence
  }

  lemma {:induction false} BoundedSequences(events: seq<Event>, key: OrderKey, top: int)
    requires forall k :: 0 <= k < |SequencesOf(events, key)| ==> SequencesOf(events, key)[k] <= top
    ensures forall i :: 0 <= i < |events| && events[i].Key() == key ==> events[i].sequence <= top
  {
    if events != [] {
      var n := |events| - 1;
      var before, all := SequencesOf(events[..n], key), SequencesOf(events, key);
      assert forall k :: 0 <= k < |before| ==> before[k] == all[k];
      BoundedSequences(events[..n], key, top);
      if events[n].Key() == key {
        assert all[|before|] == events[n].sequence;
      }
    }
  }

  lemma {:induction false} AscendingIsInSequence(events: seq<Event>, key: OrderKey)
    requires Ascending(SequencesOf(events, key))
    ensures InSequence(events, key)
  {
    if events != [] {
      var n := |events| - 1;
      var before, all := SequencesOf(events[..n], key), SequencesOf(events, key);
      assert forall k :: 0 <= k < |before| ==> before[k] == all[k];
      AscendingIsInSequence(events[..n], key);
      if events[n].Key() == key {
        assert all[|before|] == events[n].sequence;
        BoundedSequences(events[..n], key, events[n].sequence);
      }
    }
  }

  lemma OrderIsKept(expected: seq<Event>, effects: seq<Event>, key: OrderKey)
    requires OrderOk(expected, effects)
    ensures InSequence(effects, key)
  {
    hide SequencesOf, Sorted, Ascending;
    if e :| e in effects && e.Key() == key {
      SortedAscends(SequencesOf(expected, key));
      assert SequencesOf(effects, e.Key()) == Sorted(SequencesOf(expected, e.Key()));
      AscendingIsInSequence(effects, key);
    } else {
      assert forall i :: 0 <= i < |effects| ==> effects[i] in effects;
    }
  }

  /**
   * Acceptance leaves nothing open that the checker compares. In an accepted run every planned event is in the
   * effects once and in the ledger once, no other is, the effects of each order are in sequence, no answer was 409, and
   * both order tables hold, for exactly the planned orders, the operation planned last;
     and what it holds of any event is what any other accepted run of the
   * same plan holds of it.
   */
  lemma AcceptedRunsAgree(
    expected: seq<Event>, a: Remote, b: Remote, ledgerA: seq<Event>, ledgerB: seq<Event>, ordersA: seq<FinalRow>,
    ordersB: seq<FinalRow>, id: EventId, key: OrderKey)
    requires Accepts(expected, a, ledgerA, ordersA) && Accepts(expected, b, ledgerB, ordersB)
    ensures forall i, j :: 0 <= i < |a.effects| && 0 <= j < |b.effects| ==>
              a.effects[i].event.eventId == b.effects[j].event.eventId ==> AgreeAsEffects(a.effects[i], b.effects[j])
    ensures forall i, j :: 0 <= i < |ledgerA| && 0 <= j < |ledgerB| && ledgerA[i].eventId == ledgerB[j].eventId ==>
              AgreeAsLedger(ledgerA[i], ledgerB[j])
    ensures CountOf(Events(a.effects), id) == CountOf(ledgerA, id) == if IsPlanned(expected, id) then 1 else 0
    ensures InSequence(Events(a.effects), key) && Some(409) !in a.statuses
    ensures ByKey(a.orders) == ByKey(ordersA) == ByKey(b.orders)
    ensures key in ByKey(ordersA) <==> exists i :: 0 <= i < |expected| && expected[i].Key() == key
    ensures key in ByKey(ordersA) ==> IsLastPlanned(expected, key, ByKey(ordersA)[key])
  {
    RowsAgree(expected, a, b, ledgerA, ledgerB, ordersA, ordersB);
    AcceptedIs(expected, a, ledgerA, ordersA);
    AcceptedIs(expected, b, ledgerB, ordersB);
    hide Accepts, ExactlyOnce, FinalsOk, CountOf, ByKey, Events, AgreeAsEffects, AgreeAsLedger, IsPlanned,
      IsLastPlanned, OrderOk, InSequence;
    OrderIsKept(expected, Events(a.effects), key);
    CountsAreThePlan(expected, Events(a.effects), id);
    CountsAreThePlan(expected, ledgerA, id);
    FinalsAreThePlan(expected, ordersA, key);
    TablesAgree(expected, a.orders, ordersA);
    TablesAgree(expected, b.orders, ordersA);
  }
}
