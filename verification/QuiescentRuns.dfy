/**
 * When everything the topic carries is acknowledged and no row is open, the seller's effects, the
 * ledger and both order tables are exactly the plan, and the independent checker has nothing to object
 * to unless the seller answered a 409.
 */
module QuiescentRuns {
  import opened Domain
  import opened InboxTables
  import opened SellerApi
  import opened DeliveryProtocol
  import opened DeliveryInvariant
  import opened TableLemmas
  import opened DeliveryTheorems
  import opened ConflictRuns
  import EffectChecker

  type FinalRow = EffectChecker.FinalRow

  /** The consumers have acknowledged the whole topic, and every row they stored is done. */
  predicate Quiescent(cfg: Config, s: World) {
    && (forall p :: p in cfg.topic ==> Committed(s, p) == |cfg.topic[p]|)
    && (forall id :: id in s.inbox ==> s.inbox[id].state == DONE)
  }

  ghost predicate OnTopic(cfg: Config, id: EventId) {
    exists p, o :: p in cfg.topic && 0 <= o < |cfg.topic[p]| && cfg.topic[p][o].eventId == id
  }

  /** The plan lists every event once, and the topic carries all of them. */
  ghost predicate IsPlan(cfg: Config, expected: seq<Event>) {
    && EffectChecker.DistinctIds(expected)
    && (forall e :: e in expected <==> Known(cfg.catalogue, e))
    && (forall id :: id in cfg.catalogue ==> OnTopic(cfg, id))
  }

  /** The rows of a table that a query returned, in any order. */
  predicate ListsOrders(rows: seq<FinalRow>, orders: Orders) {
    && (forall r :: r in rows ==> r.key in orders && orders[r.key] == r.latest)
    && (forall key :: key in orders ==> EffectChecker.FinalRow(key, orders[key]) in rows)
  }

  predicate ListsLedger(rows: seq<Event>, effects: Effects) {
    && EffectChecker.DistinctIds(rows)
    && (forall e :: e in rows ==> e.eventId in effects && effects[e.eventId] == e)
    && (forall id :: id in effects ==> effects[id] in rows)
  }

  /** The seller's effect table, in the order of its effect indexes. */
  function EffectRows(log: seq<Event>): seq<EffectChecker.EffectRow> {
    if log == [] then []
    else EffectRows(log[..|log| - 1]) + [EffectChecker.EffectRow(log[|log| - 1], Some(log[|log| - 1]))]
  }

  function Statuses(attempts: seq<Attempt>): seq<Option<int>> {
    if attempts == [] then [] else Statuses(attempts[..|attempts| - 1]) + [attempts[|attempts| - 1].status]
  }

  // ---- counting

  lemma {:induction false} EffectRowsAreLog(log: seq<Event>)
    ensures EffectChecker.Events(EffectRows(log)) == log
    ensures forall r :: r in EffectRows(log) ==> r.event in log && r.payload == Some(r.event)
  {
    if log != [] {
      EffectRowsAreLog(log[..|log| - 1]);
      var rows, last := EffectRows(log), log[|log| - 1];
      assert rows[..|rows| - 1] == EffectRows(log[..|log| - 1]);
      assert log == log[..|log| - 1] + [last];
    }
  }

  lemma {:induction false} ConflictsAreLogged(attempts: seq<Attempt>)
    ensures Some(CONFLICT) in Statuses(attempts) <==> HasConflict(attempts)
  {
    if attempts != [] {
      var n := |attempts| - 1;
      ConflictsAreLogged(attempts[..n]);
      if HasConflict(attempts) && attempts[n].status != Some(CONFLICT) {
        var i :| 0 <= i < |attempts| && attempts[i].status == Some(CONFLICT);
        assert attempts[..n][i].status == Some(CONFLICT);
      }
      if HasConflict(attempts[..n]) {
        var i :| 0 <= i < n && attempts[..n][i].status == Some(CONFLICT);
        assert attempts[i].status == Some(CONFLICT);
      }
    }
  }

  lemma {:induction false} CountDistinct(rows: seq<Event>, id: EventId)
    requires EffectChecker.DistinctIds(rows)
    ensures EffectChecker.CountOf(rows, id) == if exists e :: e in rows && e.eventId == id then 1 else 0
  {
    if rows != [] {
      var n := |rows| - 1;
      CountDistinct(rows[..n], id);
      assert rows == rows[..n] + [rows[n]];
      if rows[n].eventId == id {
        assert forall e :: e in rows[..n] ==> e.eventId != id;
      }
    }
  }

  lemma PlanIsCatalogue(cfg: Config, expected: seq<Event>)
    requires WellNumbered(cfg.catalogue) && IsPlan(cfg, expected)
    ensures EffectChecker.ById(expected) == cfg.catalogue
  {
    EffectChecker.ByIdKeys(expected);
    var plan := EffectChecker.ById(expected);
    forall id
      ensures id in plan <==> id in cfg.catalogue
      ensures id in plan ==> plan[id] == cfg.catalogue[id]
    {
      if id in cfg.catalogue {
        assert Known(cfg.catalogue, cfg.catalogue[id]) && cfg.catalogue[id] in expected;
      }
    }
  }

  lemma ExactlyOnceWhenListed(cfg: Config, expected: seq<Event>, rows: seq<Event>, effects: Effects)
    requires WellNumbered(cfg.catalogue) && IsPlan(cfg, expected) && ListsLedger(rows, effects)
    requires effects == cfg.catalogue
    ensures EffectChecker.ExactlyOnce(expected, rows)
  {
    PlanIsCatalogue(cfg, expected);
    forall id
      ensures EffectChecker.CountOf(rows, id) == if id in EffectChecker.ById(expected) then 1 else 0
    {
      CountDistinct(rows, id);
    }
  }

  // ---- sorting

  predicate Ascending(s: seq<int>) {
    forall i, j :: 0 <= i < j < |s| ==> s[i] < s[j]
  }

  predicate NoRepeats(s: seq<int>) {
    forall i, j :: 0 <= i < j < |s| ==> s[i] != s[j]
  }

  lemma {:induction false} InsertSorts(n: int, s: seq<int>)
    requires Ascending(s) && n !in s
    ensures Ascending(EffectChecker.Insert(n, s)) && forall v :: v in EffectChecker.Insert(n, s) <==> v == n || v in s
  {
    if s != [] && n > s[0] {
      assert s == [s[0]] + s[1..];
      InsertSorts(n, s[1..]);
      var rest := EffectChecker.Insert(n, s[1..]);
      assert forall i :: 0 <= i < |rest| ==> rest[i] in rest;
    }
  }

  lemma {:induction false} SortedSorts(s: seq<int>)
    requires NoRepeats(s)
    ensures Ascending(EffectChecker.Sorted(s)) && forall v :: v in EffectChecker.Sorted(s) <==> v in s
  {
    if s != [] {
      var n := |s| - 1;
      assert s == s[..n] + [s[n]];
      SortedSorts(s[..n]);
      InsertSorts(s[n], EffectChecker.Sorted(s[..n]));
    }
  }

  lemma DropLast(s: seq<int>, rest: seq<int>, n: int)
    requires Ascending(s) && s == rest + [n] && forall v :: v in s <==> 1 <= v <= n
    ensures forall v :: v in rest <==> 1 <= v <= n - 1
  {
    forall v
      ensures v in rest ==> v in s && v < n
      ensures v in s && v != n ==> v in rest
    {
      if v in rest {
        var j :| 0 <= j < |rest| && rest[j] == v;
        assert s[j] == v && s[|rest|] == n;
      }
    }
  }

  /** The only ascending list of exactly 1..n is 1, 2, ..., n. */
  lemma {:induction false} AscendingIsUpTo(s: seq<int>, n: nat)
    requires Ascending(s) && forall v :: v in s <==> 1 <= v <= n
    ensures s == UpTo(n)
    decreases n
  {
    if s == [] {
      assert n !in s;
    } else {
      var last := |s| - 1;
      assert s[last] in s && n in s;
      var i :| 0 <= i < |s| && s[i] == n;
      assert s[i] <= s[last];
      assert s == s[..last] + [n];
      DropLast(s, s[..last], n);
      AscendingIsUpTo(s[..last], n - 1);
    }
  }

  /** The planned operations of an order carry each sequence at most once. */
  lemma {:induction false} PlannedOnce(catalogue: map<EventId, Event>, expected: seq<Event>, key: OrderKey)
    requires WellNumbered(catalogue) && EffectChecker.DistinctIds(expected)
    requires forall e :: e in expected ==> Known(catalogue, e)
    ensures NoRepeats(SequencesOf(expected, key))
    ensures forall v ::
          v in SequencesOf(expected, key) <==> exists e :: e in expected && e.Key() == key && e.sequence == v
  {
    if expected != [] {
      var n := |expected| - 1;
      var rest, last := expected[..n], expected[n];
      assert expected == rest + [last];
      PlannedOnce(catalogue, rest, key);
      assert Known(catalogue, last);
      forall e | e in rest && e.Key() == key
        ensures last.Key() == key ==> e.sequence != last.sequence
      {
        assert SamePlace(catalogue[e.eventId], catalogue[last.eventId]) ==> e.eventId == last.eventId;
      }
      if last.Key() == key {
        assert last.sequence !in SequencesOf(rest, key);
      }
    }
  }

  // ---- the finals

  lemma {:induction false} FinalIsHighest(expected: seq<Event>)
    ensures forall e :: e in expected ==>
          e.Key() in EffectChecker.Finals(expected) && e.sequence <= EffectChecker.Finals(expected)[e.Key()].sequence
    ensures forall key :: key in EffectChecker.Finals(expected) ==>
          EffectChecker.Finals(expected)[key] in expected && EffectChecker.Finals(expected)[key].Key() == key
  {
    if expected != [] {
      FinalIsHighest(expected[..|expected| - 1]);
      assert expected == expected[..|expected| - 1] + [expected[|expected| - 1]];
    }
  }

  lemma {:induction false} ByKeyLists(rows: seq<FinalRow>, orders: Orders)
    requires forall r :: r in rows ==> r.key in orders && orders[r.key] == r.latest
    ensures forall key :: key in EffectChecker.ByKey(rows) <==> exists r :: r in rows && r.key == key
    ensures forall key :: key in EffectChecker.ByKey(rows) ==>
          key in orders && EffectChecker.ByKey(rows)[key] == orders[key]
  {
    if rows != [] {
      var n := |rows| - 1;
      ByKeyLists(rows[..n], orders);
      assert rows == rows[..n] + [rows[n]];
    }
  }

  lemma FinalAgrees(cfg: Config, expected: seq<Event>, effects: Effects, orders: Orders, key: OrderKey)
    requires WellNumbered(cfg.catalogue) && IsPlan(cfg, expected) && LedgerOk(cfg.catalogue, effects, orders)
    requires effects == cfg.catalogue
    ensures var finals := EffectChecker.Finals(expected);
            (key in finals <==> key in orders) && (key in finals ==> orders[key] == finals[key].Latest())
  {
    hide EffectChecker.Finals;
    FinalIsHighest(expected);
    var finals := EffectChecker.Finals(expected);
    if key in finals {
      assert finals[key] in expected && Known(cfg.catalogue, finals[key]);
    }
    if key in orders {
      assert Delivered(effects, key, orders[key].sequence);
      var id :| id in effects && effects[id].Key() == key && effects[id].sequence == orders[key].sequence;
      assert Known(cfg.catalogue, effects[id]) && effects[id] in expected;
    }
  }

  lemma FinalsAgree(cfg: Config, expected: seq<Event>, effects: Effects, orders: Orders, rows: seq<FinalRow>)
    requires WellNumbered(cfg.catalogue) && IsPlan(cfg, expected) && LedgerOk(cfg.catalogue, effects, orders)
    requires effects == cfg.catalogue
    requires ListsOrders(rows, orders)
    ensures EffectChecker.FinalsOk(expected, rows)
  {
    hide WellNumbered, IsPlan, LedgerOk, EffectChecker.Finals, EffectChecker.ByKey;
    ByKeyLists(rows, orders);
    forall key
      ensures key in EffectChecker.ByKey(rows) <==> key in orders
    {
      if key in orders {
        assert EffectChecker.FinalRow(key, orders[key]) in rows;
      }
    }
    var finals := EffectChecker.Finals(expected);
    forall key
      ensures key in finals <==> key in orders
      ensures key in finals ==> orders[key] == finals[key].Latest()
    {
      FinalAgrees(cfg, expected, effects, orders, key);
    }
  }

  // ---- everything planned is delivered

  lemma EverythingIsRecorded(cfg: Config, s: World)
    requires Inv(cfg, s) && Quiescent(cfg, s) && forall id :: id in cfg.catalogue ==> OnTopic(cfg, id)
    ensures s.effects == cfg.catalogue
  {
    hide TokensOk, WorkersOk, LocksOk, OrderOk, CallsOk, SellerOk, GapOk, CapacityOk, BudgetOk;
    forall id | id in cfg.catalogue
      ensures id in s.effects
    {
      var p, o :| p in cfg.topic && 0 <= o < |cfg.topic[p]| && cfg.topic[p][o].eventId == id;
      assert p in s.committed && StoredUpTo(cfg, s.inbox, s.effects, p, s.committed[p]);
      if id in s.inbox {
        assert RowOk(cfg.catalogue, s.effects, s.orders, id, s.inbox[id]);
      }
    }
    assert forall id :: id in s.effects ==> id in cfg.catalogue && s.effects[id] == cfg.catalogue[id];
  }

  lemma SellerHasEverything(cfg: Config, s: World)
    requires Inv(cfg, s) && s.effects == cfg.catalogue
    ensures s.seller.effects == cfg.catalogue
  {
    hide InboxOk, TokensOk, WorkersOk, LocksOk, OrderOk, CallsOk, OffsetsOk, CapacityOk, BudgetOk;
    forall id | id in cfg.catalogue
      ensures id in s.seller.effects
    {
      var e := cfg.catalogue[id];
      InLedger(cfg.catalogue, s.effects, s.orders, e);
      InLedger(cfg.catalogue, s.seller.effects, s.seller.orders, e);
      assert LastSequence(s.orders, e.Key()) <= LastSequence(s.seller.orders, e.Key());
    }
    assert forall id :: id in s.seller.effects ==> id in cfg.catalogue && s.seller.effects[id] == cfg.catalogue[id];
  }

  lemma OrdersAreComplete(cfg: Config, s: World, expected: seq<Event>, key: OrderKey)
    requires cfg.Valid() && SellerOk(cfg.catalogue, s.seller) && IsPlan(cfg, expected)
    requires s.seller.effects == cfg.catalogue
    ensures SequencesOf(s.seller.log, key) == EffectChecker.Sorted(SequencesOf(expected, key))
  {
    var n := LastSequence(s.seller.orders, key);
    LedgerIsExact(cfg.catalogue, s.seller.effects, s.seller.orders);
    PlannedOnce(cfg.catalogue, expected, key);
    SortedSorts(SequencesOf(expected, key));
    forall e | e in expected && e.Key() == key
      ensures 1 <= e.sequence <= n
    {
      assert Known(cfg.catalogue, e) && s.seller.effects[e.eventId] == e
        && Delivered(s.seller.effects, key, e.sequence);
    }
    forall v
      ensures v in SequencesOf(expected, key) <==> 1 <= v <= n
    {
      if 1 <= v <= n {
        assert Delivered(s.seller.effects, key, v);
        var id :| id in s.seller.effects && s.seller.effects[id].Key() == key && s.seller.effects[id].sequence == v;
        assert Known(cfg.catalogue, s.seller.effects[id]) && s.seller.effects[id] in expected;
      }
    }
    AscendingIsUpTo(EffectChecker.Sorted(SequencesOf(expected, key)), n);
  }

  lemma LogListsEffects(catalogue: map<EventId, Event>, seller: Seller)
    requires SellerOk(catalogue, seller)
    ensures ListsLedger(seller.log, seller.effects)
  {
    hide LedgerOk;
  }

  lemma ContentIsPlanned(cfg: Config, expected: seq<Event>, log: seq<Event>, ledger: seq<Event>)
    requires EffectChecker.ById(expected) == cfg.catalogue && ListsLedger(log, cfg.catalogue)
    requires ListsLedger(ledger, cfg.catalogue)
    ensures EffectChecker.ContentOk(expected, EffectRows(log), ledger)
  {
    EffectRowsAreLog(log);
  }

  lemma AcceptedWhenComplete(
    cfg: Config, s: World, expected: seq<Event>, sellerOrders: seq<FinalRow>, ledger: seq<Event>,
    orders: seq<FinalRow>)
    requires cfg.Valid() && LedgerOk(cfg.catalogue, s.effects, s.orders) && SellerOk(cfg.catalogue, s.seller)
    requires IsPlan(cfg, expected) && s.effects == cfg.catalogue && s.seller.effects == cfg.catalogue
    requires ListsOrders(sellerOrders, s.seller.orders) && ListsLedger(ledger, s.effects)
    requires ListsOrders(orders, s.orders)
    ensures var remote := EffectChecker.Remote(EffectRows(s.seller.log), sellerOrders, Statuses(s.seller.attempts));
            EffectChecker.Accepts(expected, remote, ledger, orders) <==> !HasConflict(s.seller.attempts)
  {
    assert LedgerOk(cfg.catalogue, s.seller.effects, s.seller.orders);
    hide LedgerOk, SellerOk, ListsOrders, ListsLedger, WellNumbered, HasConflict;
    EffectRowsAreLog(s.seller.log);
    LogListsEffects(cfg.catalogue, s.seller);
    PlanIsCatalogue(cfg, expected);
    ContentIsPlanned(cfg, expected, s.seller.log, ledger);
    ExactlyOnceWhenListed(cfg, expected, ledger, s.effects);
    ExactlyOnceWhenListed(cfg, expected, s.seller.log, s.seller.effects);
    FinalsAgree(cfg, expected, s.effects, s.orders, orders);
    FinalsAgree(cfg, expected, s.seller.effects, s.seller.orders, sellerOrders);
    ConflictsAreLogged(s.seller.attempts);
    forall e | e in s.seller.log
      ensures SequencesOf(s.seller.log, e.Key()) == EffectChecker.Sorted(SequencesOf(expected, e.Key()))
    {
      OrdersAreComplete(cfg, s, expected, e.Key());
    }
  }

  /**
   * Whatever the run went through on the way there, the checker accepts its quiescent end state exactly
   * when no decision of the seller disregarded the idempotency key of an applied event.
   */
  lemma QuiescentRunIsAccepted(
    cfg: Config, clock: int, run: seq<Step>, expected: seq<Event>, sellerOrders: seq<FinalRow>, ledger: seq<Event>,
    orders: seq<FinalRow>)
    requires cfg.Valid() && IsRun(cfg, Initial(clock), run) && IsPlan(cfg, expected)
    requires var s := End(cfg, Initial(clock), run);
             && Quiescent(cfg, s) && ListsOrders(sellerOrders, s.seller.orders)
             && ListsLedger(ledger, s.effects) && ListsOrders(orders, s.orders)
    ensures var s := End(cfg, Initial(clock), run);
            var remote := EffectChecker.Remote(EffectRows(s.seller.log), sellerOrders, Statuses(s.seller.attempts));
            EffectChecker.Accepts(expected, remote, ledger, orders) <==> !EverIgnoresKey(cfg, Initial(clock), run)
  {
    ReachableInv(cfg, clock, run);
    ConflictExactlyWhenKeyIgnored(cfg, clock, run);
    var s := End(cfg, Initial(clock), run);
    hide IsRun, End, EverIgnoresKey;
    EverythingIsRecorded(cfg, s);
    SellerHasEverything(cfg, s);
    AcceptedWhenComplete(cfg, s, expected, sellerOrders, ledger, orders);
  }
}
