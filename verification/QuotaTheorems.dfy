/** When the per-seller quota is conserved, and the operation that breaks it otherwise. */
module QuotaTheorems {
  import opened Domain
  import opened Obligations

  // ---- counting

  function WithKey(events: set<Event>, key: OrderKey): set<Event> {
    set e | e in events && e.Key() == key
  }

  /** A few events per order are few events in all. */
  lemma {:induction false} EventsPerOrder(events: set<Event>, keys: set<OrderKey>, n: nat)
    requires forall e :: e in events ==> e.Key() in keys
    requires forall key :: key in keys ==> |WithKey(events, key)| <= n
    ensures |events| <= n * |keys|
    decreases |keys|
  {
    if keys == {} {
      assert events == {};
    } else {
      var key :| key in keys;
      var mine := WithKey(events, key);
      var others, rest := events - mine, keys - {key};
      assert keys == rest + {key} && events == others + mine;
      forall k | k in rest
        ensures |WithKey(others, k)| <= n
      {
        SubsetIsSmaller(WithKey(others, k), WithKey(events, k));
      }
      EventsPerOrder(others, rest, n);
      assert |events| <= |others| + |mine|;
      assert n * |keys| == n * |rest| + n;
    }
  }

  // ---- one operation

  /** The only change to the obligations is a new open one for the event. */
  ghost predicate Opened(book: Book, after: Book, e: Event) {
    && e.eventId !in book.obligations && after.obligations.Keys == book.obligations.Keys + {e.eventId}
    && after.obligations[e.eventId].event == e && after.obligations[e.eventId].resolvedAt == None
    && (forall id :: id in book.obligations ==> after.obligations[id] == book.obligations[id])
  }

  lemma AcceptOpens(book: Book, e: Event, quota: int, now: int)
    requires e.eventId !in book.obligations && Answer(book, e, quota, now).Accepted?
    ensures Opened(book, AfterAccept(book, e, quota, now), e)
  {
    hide OrderAccepted;
  }

  lemma OrdersGrow(book: Book, after: Book, e: Event, s: SellerId)
    requires AcceptedOf(after, s) == AcceptedOf(book, s) + (if e.sellerId == s then {e} else {})
    ensures OrdersOf(after, s) == OrdersOf(book, s) + (if e.sellerId == s && e.sequence == 1 then {e.Key()} else {})
  {
    hide AcceptedOf;
  }

  lemma AcceptedGrow(book: Book, after: Book, e: Event, s: SellerId)
    requires Opened(book, after, e)
    ensures AcceptedOf(after, s) == AcceptedOf(book, s) + (if e.sellerId == s then {e} else {})
  {
    forall x | x in AcceptedOf(book, s)
      ensures x in AcceptedOf(after, s)
    {
      var id :| id in book.obligations && book.obligations[id].event == x;
      assert after.obligations[id].event == x;
    }
    assert e.sellerId == s ==> after.obligations[e.eventId].event in AcceptedOf(after, s);
  }

  lemma ResolvedStay(book: Book, after: Book, e: Event, s: SellerId)
    requires Opened(book, after, e)
    ensures ResolvedOf(after, s) == ResolvedOf(book, s)
  {
    forall x | x in ResolvedOf(book, s)
      ensures x in ResolvedOf(after, s)
    {
      var id :| id in book.obligations && book.obligations[id].event == x && book.obligations[id].resolvedAt.Some?
        && x.sellerId == s;
      assert after.obligations[id].event == x;
    }
  }

  lemma OpenedCounts(catalogue: map<EventId, Event>, book: Book, after: Book, e: Event, s: SellerId)
    requires WellNumbered(catalogue) && WellKept(catalogue, book) && Known(catalogue, e) && Opened(book, after, e)
    ensures var mine := e.sellerId == s;
            && AcceptedOf(after, s) == AcceptedOf(book, s) + (if mine then {e} else {})
            && OrdersOf(after, s) == OrdersOf(book, s) + (if mine && e.sequence == 1 then {e.Key()} else {})
            && ResolvedOf(after, s) == ResolvedOf(book, s)
            && (mine && e.sequence == 1 ==> e.Key() !in OrdersOf(book, s))
  {
    AcceptedGrow(book, after, e, s);
    ResolvedStay(book, after, e, s);
    OrdersGrow(book, after, e, s);
    if e.sequence == 1 {
      forall id | id in book.obligations && book.obligations[id].event.sequence == 1
        ensures book.obligations[id].event.Key() != e.Key()
      {
        assert book.obligations[id].event == catalogue[id] && id != e.eventId;
        assert !SamePlace(catalogue[id], catalogue[e.eventId]);
      }
    }
  }

  lemma SameEvents(book: Book, after: Book, s: SellerId)
    requires after.obligations.Keys == book.obligations.Keys
    requires forall id :: id in book.obligations ==> after.obligations[id].event == book.obligations[id].event
    ensures AcceptedOf(after, s) == AcceptedOf(book, s) && OrdersOf(after, s) == OrdersOf(book, s)
  {
    forall x
      ensures x in AcceptedOf(after, s) <==> x in AcceptedOf(book, s)
    {
      if x in AcceptedOf(book, s) {
        var id :| id in book.obligations && book.obligations[id].event == x;
        assert after.obligations[id].event == x;
      }
    }
  }

  lemma MoreResolved(book: Book, after: Book, e: Event, s: SellerId)
    requires after.obligations.Keys == book.obligations.Keys && e.eventId in book.obligations
    requires book.obligations[e.eventId].event == e
    requires forall id :: id in book.obligations ==>
      && after.obligations[id].event == book.obligations[id].event
      && (after.obligations[id].resolvedAt.Some? <==> book.obligations[id].resolvedAt.Some? || id == e.eventId)
    ensures ResolvedOf(after, s) == ResolvedOf(book, s) + (if e.sellerId == s then {e} else {})
  {
    forall x | x in ResolvedOf(book, s)
      ensures x in ResolvedOf(after, s)
    {
      var id :| id in book.obligations && book.obligations[id].event == x && book.obligations[id].resolvedAt.Some?;
      assert after.obligations[id].event == x;
    }
    assert e.sellerId == s ==> after.obligations[e.eventId].event in ResolvedOf(after, s);
  }

  lemma ResolveCounts(catalogue: map<EventId, Event>, book: Book, e: Event, now: int, s: SellerId)
    requires WellNumbered(catalogue) && WellKept(catalogue, book) && Known(catalogue, e) && IsOpen(book, e.eventId)
    ensures var after := AfterResolve(book, e.eventId, e.sellerId, now);
            && AcceptedOf(after, s) == AcceptedOf(book, s) && OrdersOf(after, s) == OrdersOf(book, s)
            && ResolvedOf(after, s) == ResolvedOf(book, s) + (if e.sellerId == s then {e} else {})
    ensures e !in ResolvedOf(book, s)
    ensures e in AcceptedOf(book, e.sellerId)
  {
    var after := AfterResolve(book, e.eventId, e.sellerId, now);
    assert book.obligations[e.eventId].event == e;
    assert after.obligations.Keys == book.obligations.Keys;
    forall id | id in book.obligations
      ensures after.obligations[id].event == book.obligations[id].event
      ensures after.obligations[id].resolvedAt.Some? <==> book.obligations[id].resolvedAt.Some? || id == e.eventId
    {
    }
    SameEvents(book, after, s);
    MoreResolved(book, after, e, s);
    assert forall id :: id in book.obligations && book.obligations[id].event == e ==>
      catalogue[id].eventId == id == e.eventId;
  }

  lemma OrderStaysAccepted(book: Book, after: Book, key: OrderKey)
    requires OrderAccepted(book, key)
    requires forall id :: id in book.obligations ==>
          id in after.obligations && after.obligations[id].event == book.obligations[id].event
    ensures OrderAccepted(after, key)
  {
    var first :| first in book.obligations && book.obligations[first].event.Key() == key
      && book.obligations[first].event.sequence == 1;
    assert after.obligations[first].event == book.obligations[first].event;
  }

  lemma OpenKeepsBook(catalogue: map<EventId, Event>, book: Book, after: Book, e: Event)
    requires WellNumbered(catalogue) && WellKept(catalogue, book) && Known(catalogue, e) && Opened(book, after, e)
    requires e.sequence == 1 || OrderAccepted(book, e.Key())
    requires (forall s :: s in book.used ==> s in after.used) && (e.sequence == 1 ==> e.sellerId in after.used)
    ensures WellKept(catalogue, after)
  {
    forall id | id in after.obligations
      ensures id in catalogue && after.obligations[id].event == catalogue[id]
      ensures OrderAccepted(after, after.obligations[id].event.Key())
    {
      if id in book.obligations {
        OrderStaysAccepted(book, after, book.obligations[id].event.Key());
      } else if e.sequence == 1 {
        assert after.obligations[id].event == e;
      } else {
        OrderStaysAccepted(book, after, e.Key());
      }
    }
    forall s | |OrdersOf(after, s)| > 0
      ensures s in after.used
    {
      OpenedCounts(catalogue, book, after, e, s);
    }
  }

  lemma SameKeepsBook(catalogue: map<EventId, Event>, book: Book, after: Book)
    requires WellKept(catalogue, book) && after.obligations.Keys == book.obligations.Keys
    requires forall id :: id in book.obligations ==> after.obligations[id].event == book.obligations[id].event
    requires forall s :: s in book.used ==> s in after.used
    ensures WellKept(catalogue, after)
  {
    forall id | id in after.obligations
      ensures OrderAccepted(after, after.obligations[id].event.Key())
    {
      OrderStaysAccepted(book, after, book.obligations[id].event.Key());
    }
    forall s | |OrdersOf(after, s)| > 0
      ensures s in after.used
    {
      SameEvents(book, after, s);
    }
  }

  lemma DoneKeepsBook(catalogue: map<EventId, Event>, book: Book, op: Op, quota: int)
    requires WellNumbered(catalogue) && WellKept(catalogue, book) && CanDo(catalogue, op) && quota > 0
    ensures WellKept(catalogue, Done(book, op, quota))
  {
    hide WellNumbered, WellKept, OrderAccepted;
    var after, e := Done(book, op, quota), op.event;
    if op.Accept? && e.eventId !in book.obligations && Answer(book, e, quota, op.now).Accepted? {
      AcceptOpens(book, e, quota, op.now);
      OpenKeepsBook(catalogue, book, after, e);
    } else {
      SameKeepsBook(catalogue, book, after);
    }
  }

  // ---- the books balance

  /** Every operation of a seller belongs to one of its accepted orders, so at most three belong to each. */
  lemma AcceptedAreReserved(catalogue: map<EventId, Event>, book: Book, s: SellerId)
    requires WellNumbered(catalogue) && WellKept(catalogue, book) && FewOperations(catalogue)
    ensures |AcceptedOf(book, s)| <= OPERATIONS_PER_ORDER * |OrdersOf(book, s)|
  {
    var events, keys := AcceptedOf(book, s), OrdersOf(book, s);
    forall e | e in events
      ensures e.Key() in keys
    {
      assert OrderAccepted(book, e.Key());
      var first :| first in book.obligations && book.obligations[first].event.Key() == e.Key()
        && book.obligations[first].event.sequence == 1;
      assert book.obligations[first].event in events;
    }
    forall key | key in keys
      ensures |WithKey(events, key)| <= OPERATIONS_PER_ORDER
    {
      var first :| first in events && first.sequence == 1 && first.Key() == key;
      var id :| id in book.obligations && book.obligations[id].event == first;
      assert catalogue[id] == first;
      forall e | e in WithKey(events, key)
        ensures e in OperationsOf(catalogue, key)
      {
        var i :| i in book.obligations && book.obligations[i].event == e;
        assert catalogue[i] == e;
      }
      SubsetIsSmaller(WithKey(events, key), OperationsOf(catalogue, key));
    }
    EventsPerOrder(events, keys, OPERATIONS_PER_ORDER);
  }

  lemma ResolvedAreAccepted(book: Book, s: SellerId)
    ensures ResolvedOf(book, s) <= AcceptedOf(book, s)
  {
  }

  ghost predicate AllBalanced(book: Book, quota: int) {
    forall s :: Balanced(book, s, quota)
  }

  lemma SameResolved(book: Book, after: Book, s: SellerId)
    requires after.obligations == book.obligations
    ensures ResolvedOf(after, s) == ResolvedOf(book, s)
  {
  }

  lemma AcceptKeepsBalance(catalogue: map<EventId, Event>, book: Book, op: Op, quota: int, s: SellerId)
    requires WellNumbered(catalogue) && WellKept(catalogue, book) && CanDo(catalogue, op) && quota > 0 && op.Accept?
    requires FewOperations(catalogue) && Balanced(book, s, quota)
    ensures Balanced(Done(book, op, quota), s, quota)
  {
    hide AcceptedOf, OrdersOf, ResolvedOf, FewOperations, OrderAccepted;
    var after, e := Done(book, op, quota), op.event;
    DoneKeepsBook(catalogue, book, op, quota);
    AcceptedAreReserved(catalogue, book, s);
    AcceptedAreReserved(catalogue, after, s);
    if e.eventId !in book.obligations && Answer(book, e, quota, op.now).Accepted? {
      AcceptOpens(book, e, quota, op.now);
      OpenedCounts(catalogue, book, after, e, s);
    } else {
      SameEvents(book, after, s);
      assert ResolvedOf(after, s) == ResolvedOf(book, s) by { SameResolved(book, after, s); }
    }
  }

  lemma ResolveKeepsBalance(catalogue: map<EventId, Event>, book: Book, op: Op, quota: int, s: SellerId)
    requires WellNumbered(catalogue) && WellKept(catalogue, book) && CanDo(catalogue, op) && quota > 0 && op.Resolve?
    requires FewOperations(catalogue) && Balanced(book, s, quota)
    ensures Balanced(Done(book, op, quota), s, quota)
  {
    hide AcceptedOf, OrdersOf, ResolvedOf, FewOperations, OrderAccepted;
    var after, e := Done(book, op, quota), op.event;
    DoneKeepsBook(catalogue, book, op, quota);
    AcceptedAreReserved(catalogue, book, s);
    AcceptedAreReserved(catalogue, after, s);
    if IsOpen(book, e.eventId) {
      ResolveCounts(catalogue, book, e, op.now, s);
      ResolvedAreAccepted(book, s);
      if e.sellerId == s {
        SubsetIsSmaller(ResolvedOf(book, s), AcceptedOf(book, s));
      }
    }
  }

  lemma DoneKeepsBalance(catalogue: map<EventId, Event>, book: Book, op: Op, quota: int, s: SellerId)
    requires WellNumbered(catalogue) && WellKept(catalogue, book) && CanDo(catalogue, op) && quota > 0
    requires FewOperations(catalogue) && Balanced(book, s, quota)
    ensures Balanced(Done(book, op, quota), s, quota)
  {
    hide WellNumbered, WellKept, CanDo, FewOperations, Balanced, Done;
    match op
    case Accept(_, _) => AcceptKeepsBalance(catalogue, book, op, quota, s);
    case Resolve(_, _) => ResolveKeepsBalance(catalogue, book, op, quota, s);
  }

  // ---- whole runs

  lemma OneMoreOp(ops: seq<Op>, op: Op, quota: int)
    ensures DoneAll(ops + [op], quota) == Done(DoneAll(ops, quota), op, quota)
  {
    assert (ops + [op])[..|ops|] == ops;
  }

  lemma EmptyIsBalanced(catalogue: map<EventId, Event>, s: SellerId, quota: int)
    requires quota > 0
    ensures WellKept(catalogue, EMPTY) && Balanced(EMPTY, s, quota)
  {
  }

  lemma {:induction false} RunIsWellKept(catalogue: map<EventId, Event>, ops: seq<Op>, quota: int)
    requires WellNumbered(catalogue) && CanDoAll(catalogue, ops) && quota > 0
    ensures WellKept(catalogue, DoneAll(ops, quota))
  {
    hide WellNumbered, WellKept, Done;
    if ops == [] {
      EmptyIsBalanced(catalogue, 0, quota);
    } else {
      RunIsWellKept(catalogue, ops[..|ops| - 1], quota);
      DoneKeepsBook(catalogue, DoneAll(ops[..|ops| - 1], quota), ops[|ops| - 1], quota);
    }
  }

  lemma {:induction false} RunIsBalanced(catalogue: map<EventId, Event>, ops: seq<Op>, quota: int, s: SellerId)
    requires WellNumbered(catalogue) && CanDoAll(catalogue, ops) && quota > 0 && FewOperations(catalogue)
    ensures Balanced(DoneAll(ops, quota), s, quota)
  {
    hide WellNumbered, WellKept, Done, FewOperations, Balanced;
    if ops == [] {
      EmptyIsBalanced(catalogue, s, quota);
    } else {
      RunIsBalanced(catalogue, ops[..|ops| - 1], quota, s);
      RunIsWellKept(catalogue, ops[..|ops| - 1], quota);
      DoneKeepsBalance(catalogue, DoneAll(ops[..|ops| - 1], quota), ops[|ops| - 1], quota, s);
    }
  }

  /** A quota below one order's reservation accepts nothing. */
  lemma {:induction false} NothingFits(ops: seq<Op>, quota: int)
    requires 0 < quota < OPERATIONS_PER_ORDER
    ensures DoneAll(ops, quota).obligations == map[]
    ensures forall s :: Used(DoneAll(ops, quota), s) == 0
  {
    if ops != [] {
      var book, op := DoneAll(ops[..|ops| - 1], quota), ops[|ops| - 1];
      NothingFits(ops[..|ops| - 1], quota);
      assert !OrderAccepted(book, op.event.Key());
      assert Used(book, op.event.sellerId) == 0;
      forall s
        ensures Used(DoneAll(ops, quota), s) == 0
      {
        assert Used(book, s) == 0;
      }
    }
  }

  /** Without a quota an operation is always accepted, and nothing is reserved or given back. */
  lemma OpReservesNothing(book: Book, op: Op, quota: int)
    requires quota <= 0
    ensures book.used == map[] ==> Done(book, op, quota).used == map[]
    ensures op.Accept? ==>
          Answer(book, op.event, quota, op.now).Accepted? && op.event.eventId in Done(book, op, quota).obligations
  {
    hide OrderAccepted;
  }

  lemma NothingIsBalanced(book: Book, s: SellerId, quota: int)
    requires book.obligations == map[] && Used(book, s) == 0 && quota > 0
    ensures Balanced(book, s, quota)
  {
    assert AcceptedOf(book, s) == {} && OrdersOf(book, s) == {} && ResolvedOf(book, s) == {};
  }

  // ---- the operation too many

  lemma {:induction false} NeverNegative(ops: seq<Op>, quota: int, s: SellerId)
    ensures Used(DoneAll(ops, quota), s) >= 0
  {
    if ops != [] {
      NeverNegative(ops[..|ops| - 1], quota, s);
      var op := ops[|ops| - 1];
      NeverNegative(ops[..|ops| - 1], quota, op.event.sellerId);
    }
  }

  /** A run that accepted exactly these operations of one order, and resolved those. */
  ghost predicate Reached(
    catalogue: map<EventId, Event>, quota: int, ops: seq<Op>, key: OrderKey, accepted: set<Event>,
    resolved: set<Event>)
  {
    var book := DoneAll(ops, quota);
    && CanDoAll(catalogue, ops) && OrdersOf(book, key.sellerId) == {key}
    && AcceptedOf(book, key.sellerId) == accepted && ResolvedOf(book, key.sellerId) == resolved
  }

  lemma NothingAccepted(s: SellerId)
    ensures AcceptedOf(EMPTY, s) == {} && OrdersOf(EMPTY, s) == {} && ResolvedOf(EMPTY, s) == {}
  {
  }

  lemma FirstIsReached(catalogue: map<EventId, Event>, quota: int, first: Event)
    requires WellNumbered(catalogue) && Known(catalogue, first) && first.sequence == 1 && quota >= OPERATIONS_PER_ORDER
    ensures Reached(catalogue, quota, [Accept(first, 0)], first.Key(), {first}, {})
  {
    var s := first.sellerId;
    EmptyIsBalanced(catalogue, s, quota);
    OneMoreOp([], Accept(first, 0), quota);
    assert [] + [Accept(first, 0)] == [Accept(first, 0)];
    AcceptOpens(EMPTY, first, quota, 0);
    OpenedCounts(catalogue, EMPTY, DoneAll([Accept(first, 0)], quota), first, s);
    NothingAccepted(s);
  }

  lemma AcceptedIsOpened(book: Book, e: Event)
    requires e !in AcceptedOf(book, e.sellerId)
    ensures e.eventId in book.obligations ==> book.obligations[e.eventId].event != e
  {
  }

  lemma AcceptMore(
    catalogue: map<EventId, Event>, quota: int, ops: seq<Op>, key: OrderKey, accepted: set<Event>,
    resolved: set<Event>, e: Event)
    requires WellNumbered(catalogue) && Known(catalogue, e) && quota > 0
    requires Reached(catalogue, quota, ops, key, accepted, resolved)
    requires e.Key() == key && e !in accepted && e.sequence != 1
    ensures Reached(catalogue, quota, ops + [Accept(e, 0)], key, accepted + {e}, resolved)
  {
    var book := DoneAll(ops, quota);
    RunIsWellKept(catalogue, ops, quota);
    OneMoreOp(ops, Accept(e, 0), quota);
    assert e.eventId in book.obligations ==> book.obligations[e.eventId].event == e;
    assert OrderAccepted(book, key) by {
      assert key in OrdersOf(book, key.sellerId);
    }
    hide DoneAll, AcceptedOf, OrdersOf, ResolvedOf, WellNumbered, WellKept, OrderAccepted;
    AcceptedIsOpened(book, e);
    AcceptOpens(book, e, quota, 0);
    OpenedCounts(catalogue, book, AfterAccept(book, e, quota, 0), e, key.sellerId);
  }

  lemma ResolveMore(
    catalogue: map<EventId, Event>, quota: int, ops: seq<Op>, key: OrderKey, accepted: set<Event>,
    resolved: set<Event>, e: Event)
    requires WellNumbered(catalogue) && Known(catalogue, e) && quota > 0
    requires Reached(catalogue, quota, ops, key, accepted, resolved)
    requires e.Key() == key && e in accepted && e !in resolved
    ensures Reached(catalogue, quota, ops + [Resolve(e, 0)], key, accepted, resolved + {e})
  {
    var book := DoneAll(ops, quota);
    RunIsWellKept(catalogue, ops, quota);
    OneMoreOp(ops, Resolve(e, 0), quota);
    var id :| id in book.obligations && book.obligations[id].event == e;
    assert id == e.eventId && book.obligations[id].resolvedAt == None;
    ResolveCounts(catalogue, book, e, 0, key.sellerId);
  }

  lemma NotFirst(catalogue: map<EventId, Event>, first: Event, e: Event)
    requires WellNumbered(catalogue) && Known(catalogue, first) && Known(catalogue, e)
    requires e.Key() == first.Key() && first.sequence == 1 && e != first
    ensures e.sequence != 1
  {
    assert e.sequence == 1 ==> SamePlace(catalogue[e.eventId], catalogue[first.eventId]);
  }

  lemma FourIsTooMany(
    catalogue: map<EventId, Event>, quota: int, ops: seq<Op>, key: OrderKey, accepted: set<Event>,
    resolved: set<Event>)
    requires Reached(catalogue, quota, ops, key, accepted, resolved) && |resolved| > OPERATIONS_PER_ORDER
    ensures !QuotaIsConserved(catalogue, quota)
  {
    NeverNegative(ops, quota, key.sellerId);
    assert !Balanced(DoneAll(ops, quota), key.sellerId, quota);
  }

  /** Four operations of one order: a fourth delivery gives back a share that was never reserved. */
  lemma FourthOperationBreaks(catalogue: map<EventId, Event>, quota: int, first: Event, b: Event, c: Event, d: Event)
    requires WellNumbered(catalogue) && quota >= OPERATIONS_PER_ORDER
    requires Known(catalogue, first) && Known(catalogue, b) && Known(catalogue, c) && Known(catalogue, d)
    requires first.sequence == 1 && b.Key() == c.Key() == d.Key() == first.Key() && |{first, b, c, d}| == 4
    ensures !QuotaIsConserved(catalogue, quota)
  {
    hide Reached, WellNumbered, QuotaIsConserved;
    var key := first.Key();
    NotFirst(catalogue, first, b);
    NotFirst(catalogue, first, c);
    NotFirst(catalogue, first, d);
    var ops := [Accept(first, 0)];
    FirstIsReached(catalogue, quota, first);
    AcceptMore(catalogue, quota, ops, key, {first}, {}, b);
    AcceptMore(catalogue, quota, ops + [Accept(b, 0)], key, {first} + {b}, {}, c);
    AcceptMore(catalogue, quota, ops + [Accept(b, 0)] + [Accept(c, 0)], key, {first} + {b} + {c}, {}, d);
    ops := ops + [Accept(b, 0)] + [Accept(c, 0)] + [Accept(d, 0)];
    var all := {first} + {b} + {c} + {d};
    ResolveMore(catalogue, quota, ops, key, all, {}, first);
    ResolveMore(catalogue, quota, ops + [Resolve(first, 0)], key, all, {} + {first}, b);
    ResolveMore(catalogue, quota, ops + [Resolve(first, 0)] + [Resolve(b, 0)], key, all, {} + {first} + {b}, c);
    ResolveMore(catalogue, quota, ops + [Resolve(first, 0)] + [Resolve(b, 0)] + [Resolve(c, 0)], key, all,
      {} + {first} + {b} + {c}, d);
    ops := ops + [Resolve(first, 0)] + [Resolve(b, 0)] + [Resolve(c, 0)] + [Resolve(d, 0)];
    assert {} + {first} + {b} + {c} + {d} == {first, b, c, d};
    FourIsTooMany(catalogue, quota, ops, key, all, {first, b, c, d});
  }

  lemma OperationsAreKnown(catalogue: map<EventId, Event>, key: OrderKey)
    requires WellNumbered(catalogue)
    ensures forall e :: e in OperationsOf(catalogue, key) ==> Known(catalogue, e) && e.Key() == key
  {
  }

  lemma ThreeOthers(events: set<Event>, a: Event) returns (b: Event, c: Event, d: Event)
    requires a in events && |events| > 3
    ensures b in events && c in events && d in events && |{a, b, c, d}| == 4
  {
    var rest := events - {a};
    assert |rest| == |events| - 1;
    b :| b in rest;
    rest := rest - {b};
    assert |rest| == |events| - 2;
    c :| c in rest;
    rest := rest - {c};
    assert |rest| == |events| - 3;
    d :| d in rest;
  }

  lemma TooManyOperations(catalogue: map<EventId, Event>, quota: int)
    requires WellNumbered(catalogue) && quota >= OPERATIONS_PER_ORDER && !FewOperations(catalogue)
    ensures !QuotaIsConserved(catalogue, quota)
  {
    var id :| id in catalogue && catalogue[id].sequence == 1
      && |OperationsOf(catalogue, catalogue[id].Key())| > OPERATIONS_PER_ORDER;
    var first := catalogue[id];
    var operations := OperationsOf(catalogue, first.Key());
    assert first in operations;
    OperationsAreKnown(catalogue, first.Key());
    hide OperationsOf, QuotaIsConserved, WellNumbered;
    var b, c, d := ThreeOthers(operations, first);
    FourthOperationBreaks(catalogue, quota, first, b, c, d);
  }

  /**
   * The quota is conserved for every run of requests and reports exactly when no order that can be
   * accepted has more than three operations, or the quota is too small to accept any order at all.
   */
  lemma QuotaIsConservedExactly(catalogue: map<EventId, Event>, quota: int)
    requires WellNumbered(catalogue) && quota > 0
    ensures QuotaIsConserved(catalogue, quota) <==> quota < OPERATIONS_PER_ORDER || FewOperations(catalogue)
  {
    if quota < OPERATIONS_PER_ORDER {
      forall ops, s | CanDoAll(catalogue, ops)
        ensures Balanced(DoneAll(ops, quota), s, quota)
      {
        NothingFits(ops, quota);
        NothingIsBalanced(DoneAll(ops, quota), s, quota);
      }
    } else if FewOperations(catalogue) {
      forall ops, s | CanDoAll(catalogue, ops)
        ensures Balanced(DoneAll(ops, quota), s, quota)
      {
        RunIsBalanced(catalogue, ops, quota, s);
      }
    } else {
      TooManyOperations(catalogue, quota);
    }
  }
}
