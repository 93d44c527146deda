/** How partner requests are numbered and spelled, and how many may be unfinished, over all runs of the source. */
module OrderTheorems {
  import opened Domain
  import opened OrderSource

  // ---- the requests of one order

  function RequestsOf(history: seq<Event>, orderId: int): seq<Event> {
    if history == [] then []
    else
      var before, e := RequestsOf(history[..|history| - 1], orderId), history[|history| - 1];
      if e.orderId == orderId then before + [e] else before
  }

  predicate NumberedFromOne(requests: seq<Event>) {
    forall i :: 0 <= i < |requests| ==> requests[i].sequence == i + 1
  }

  predicate IsCreateThenChanges(requests: seq<Event>) {
    requests != [] && requests[0].operation == CREATE
      && forall i :: 0 < i < |requests| ==> requests[i].operation == CHANGE
  }

  /** Nothing, or a CREATE, then CHANGEs, and a final CANCEL exactly when a known order was cancelled. */
  predicate Spells(requests: seq<Event>, status: Status) {
    match status
    case PENDING => requests == []
    case CONFIRMED => requests == [] || IsCreateThenChanges(requests)
    case CANCELLED =>
      requests == []
      || (requests[|requests| - 1].operation == CANCEL && IsCreateThenChanges(requests[..|requests| - 1]))
  }

  ghost predicate OrderOk(s: Source, id: int) {
    var requests := RequestsOf(s.history, id);
    && NumberedFromOne(requests)
    && (id !in s.orders ==> requests == [])
    && (id in s.orders ==>
          && |requests| == s.orders[id].partnerSequence && Spells(requests, s.orders[id].status)
          && forall i :: 0 <= i < |requests| ==> requests[i].sellerId == s.orders[id].sellerId)
  }

  ghost predicate ValuesOk(s: Source) {
    && (forall id :: id in s.orders ==> id > 0 && s.orders[id].quantity > 0 && s.orders[id].price >= 0.0)
    && (forall i :: 0 <= i < |s.history| ==> s.history[i].Valid())
    && (forall i, j :: 0 <= i < j < |s.history| ==> s.history[i].eventId != s.history[j].eventId)
  }

  ghost predicate CountsOk(s: Source) {
    && CountUnfinished(s) <= UNFINISHED_LIMIT
    && Requests(s) <= AllRequests(s) && s.delivered <= AllRequests(s)
  }

  ghost predicate Inv(s: Source) {
    (forall id :: OrderOk(s, id)) && ValuesOk(s) && CountsOk(s)
  }

  // ---- numbering

  lemma AppendRequest(history: seq<Event>, e: Event, orderId: int)
    ensures RequestsOf(history + [e], orderId)
          == RequestsOf(history, orderId) + (if e.orderId == orderId then [e] else [])
  {
    assert (history + [e])[..|history|] == history;
  }

  /** An operation may only follow what it fits on. */
  predicate Fits(before: OrderState, after: OrderState, operation: Operation) {
    && after.partnerSequence == before.partnerSequence && after.sellerId == before.sellerId
    && match operation
       case CREATE => before.status == PENDING && after.status == CONFIRMED
       case CHANGE => before.status == CONFIRMED && after.status == CONFIRMED && after.partnerSequence > 0
       case CANCEL => before.status == CONFIRMED && after.status == CANCELLED && after.partnerSequence > 0
  }

  /** The next request continues the numbering and the spelling. */
  lemma NextSpells(requests: seq<Event>, e: Event, before: OrderState, after: OrderState)
    requires NumberedFromOne(requests) && |requests| == before.partnerSequence && Spells(requests, before.status)
    requires Fits(before, after, e.operation) && e.sequence == before.partnerSequence + 1
    ensures NumberedFromOne(requests + [e]) && Spells(requests + [e], after.status)
  {
    assert (requests + [e])[..|requests|] == requests;
  }

  lemma SameSeller(before: OrderState, after: OrderState, operation: Operation)
    requires Fits(before, after, operation)
    ensures after.partnerSequence == before.partnerSequence && after.sellerId == before.sellerId
  {
  }

  lemma RequestKeepsOrder(
    s: Source, orderId: int, order: OrderState, operation: Operation, eventId: EventId, now: int, id: int)
    requires OrderOk(s, id) && orderId in s.orders && Fits(s.orders[orderId], order, operation)
    ensures OrderOk(WithRequest(s, orderId, order, operation, eventId, now), id)
  {
    hide RequestsOf, Spells, NumberedFromOne, Fits;
    var e, requests := RequestOf(orderId, order, operation, eventId, now), RequestsOf(s.history, id);
    AppendRequest(s.history, e, id);
    SameSeller(s.orders[orderId], order, operation);
    if id == orderId {
      NextSpells(requests, e, s.orders[orderId], order);
    } else {
      assert requests + [] == requests;
    }
  }

  /** One more request of an order is the next in number, and may only follow what it fits on. */
  lemma RequestKeepsOrders(s: Source, orderId: int, order: OrderState, operation: Operation, eventId: EventId, now: int)
    requires forall id :: OrderOk(s, id)
    requires orderId in s.orders && Fits(s.orders[orderId], order, operation)
    ensures forall id :: OrderOk(WithRequest(s, orderId, order, operation, eventId, now), id)
  {
    hide OrderOk, WithRequest, Fits;
    forall id
      ensures OrderOk(WithRequest(s, orderId, order, operation, eventId, now), id)
    {
      RequestKeepsOrder(s, orderId, order, operation, eventId, now, id);
    }
  }

  lemma SameRequestsKeepOrders(s: Source, after: Source)
    requires forall id :: OrderOk(s, id)
    requires after.history == s.history
    requires forall id :: id in s.orders ==>
      && id in after.orders && after.orders[id].partnerSequence == s.orders[id].partnerSequence
      && after.orders[id].sellerId == s.orders[id].sellerId
      && (after.orders[id].status == s.orders[id].status || s.orders[id].status == PENDING)
    requires forall id :: id in after.orders && id !in s.orders ==> after.orders[id].partnerSequence == 0
    ensures forall id :: OrderOk(after, id)
  {
    forall id
      ensures OrderOk(after, id)
    {
      assert OrderOk(s, id);
    }
  }

  lemma StepKeepsOrders(s: Source, step: Step)
    requires (forall id :: OrderOk(s, id)) && CanStep(s, step)
    ensures forall id :: OrderOk(After(s, step), id)
  {
    hide OutboxFull, BusinessFull, OrderOk;
    match step
    case StockUpdated(orderId, eventId, now) =>
      if After(s, step) != s {
        RequestKeepsOrders(s, orderId, s.orders[orderId].(status := CONFIRMED), CREATE, eventId, now);
      }
    case Change(orderId, quantity, price, eventId, now) =>
      if MayMutate(s, orderId) {
        RequestKeepsOrders(s, orderId, s.orders[orderId].(quantity := quantity, price := price), CHANGE, eventId, now);
      }
    case Cancel(orderId, eventId, now) =>
      if MayMutate(s, orderId) {
        RequestKeepsOrders(s, orderId, s.orders[orderId].(status := CANCELLED), CANCEL, eventId, now);
      }
    case Create(_, _, _, _, _) => SameRequestsKeepOrders(s, After(s, step));
    case StockFailed(_) => SameRequestsKeepOrders(s, After(s, step));
    case MarkSent(_) => SameRequestsKeepOrders(s, After(s, step));
    case PurgeSent(_) => SameRequestsKeepOrders(s, After(s, step));
    case Deliver(_) => SameRequestsKeepOrders(s, After(s, step));
  }

  lemma RequestKeepsValues(s: Source, orderId: int, order: OrderState, operation: Operation, eventId: EventId, now: int)
    requires ValuesOk(s) && orderId in s.orders && IsFresh(s, eventId) && now > 0 && order.quantity > 0
    requires order.price >= 0.0
    ensures ValuesOk(WithRequest(s, orderId, order, operation, eventId, now))
  {
    assert forall i :: 0 <= i < |s.history| ==> s.history[i] in s.history;
  }

  lemma StepKeepsValues(s: Source, step: Step)
    requires ValuesOk(s) && CanStep(s, step)
    ensures ValuesOk(After(s, step))
  {
    hide OutboxFull, BusinessFull, Sent, WithRequest;
    match step
    case StockUpdated(orderId, eventId, now) =>
      if orderId in s.orders {
        RequestKeepsValues(s, orderId, s.orders[orderId].(status := CONFIRMED), CREATE, eventId, now);
      }
    case Change(orderId, quantity, price, eventId, now) =>
      if orderId in s.orders {
        RequestKeepsValues(s, orderId, s.orders[orderId].(quantity := quantity, price := price), CHANGE, eventId, now);
      }
    case Cancel(orderId, eventId, now) =>
      if orderId in s.orders {
        RequestKeepsValues(s, orderId, s.orders[orderId].(status := CANCELLED), CANCEL, eventId, now);
      }
    case _ =>
  }

  // ---- counting

  lemma PendingAfter(s: Source, after: Source, id: int)
    requires forall i :: i != id ==>
          (i in after.orders <==> i in s.orders) && (i in s.orders ==> after.orders[i] == s.orders[i])
    requires id in after.orders
    ensures PendingOrders(after)
          == (if after.orders[id].status == PENDING then PendingOrders(s) + {id} else PendingOrders(s) - {id})
  {
    forall i | i != id
      ensures i in PendingOrders(after) <==> i in PendingOrders(s)
    {
    }
    var expected := if after.orders[id].status == PENDING then PendingOrders(s) + {id} else PendingOrders(s) - {id};
    forall i
      ensures i in PendingOrders(after) <==> i in expected
    {
    }
  }

  lemma RequestAdds(s: Source, after: Source, e: Event)
    requires after.outbox == s.outbox[Request(e) := false]
    ensures Requests(after) == Requests(s) + {e}
  {
    assert forall entry :: entry in s.outbox ==> entry in after.outbox;
    assert Request(e) in after.outbox;
    forall x | x in Requests(s)
      ensures x in Requests(after)
    {
      var entry :| entry in s.outbox && entry.Request? && entry.event == x;
      assert entry in after.outbox;
    }
    assert Request(e).event in Requests(after);
  }

  lemma HistoryAdds(s: Source, after: Source, e: Event)
    requires after.history == s.history + [e]
    ensures AllRequests(after) == AllRequests(s) + {e}
  {
  }

  lemma WasPending(s: Source, id: int)
    ensures id in s.orders && s.orders[id].status == PENDING ==> |PendingOrders(s) - {id}| == |PendingOrders(s)| - 1
    ensures |PendingOrders(s) - {id}| <= |PendingOrders(s)|
  {
    SubsetIsSmaller(PendingOrders(s) - {id}, PendingOrders(s));
    assert id in PendingOrders(s) ==> PendingOrders(s) == PendingOrders(s) - {id} + {id};
  }

  lemma OneMoreUndelivered(requests: set<Event>, delivered: set<Event>, e: Event)
    ensures |requests + {e} - delivered| <= |requests - delivered| + 1
  {
    SubsetIsSmaller(requests + {e} - delivered, (requests - delivered) + {e});
  }

  lemma RequestKeepsCounts(s: Source, orderId: int, order: OrderState, operation: Operation, eventId: EventId, now: int)
    requires CountsOk(s) && orderId in s.orders && order.status != PENDING
    requires s.orders[orderId].status == PENDING || CountUnfinished(s) < UNFINISHED_LIMIT
    ensures CountsOk(WithRequest(s, orderId, order, operation, eventId, now))
  {
    hide PendingOrders, Requests, AllRequests;
    var after, e :=
      WithRequest(s, orderId, order, operation, eventId, now), RequestOf(orderId, order, operation, eventId, now);
    PendingAfter(s, after, orderId);
    RequestAdds(s, after, e);
    HistoryAdds(s, after, e);
    hide WithRequest;
    WasPending(s, orderId);
    OneMoreUndelivered(Requests(s), s.delivered, e);
  }

  lemma CreateKeepsRequests(s: Source, after: Source, orderId: int)
    requires after.outbox == s.outbox[Created(orderId) := false]
    ensures Requests(after) == Requests(s)
  {
    forall x | x in Requests(s)
      ensures x in Requests(after)
    {
      assert Request(x) in after.outbox;
    }
  }

  lemma MarkKeepsRequests(s: Source, after: Source, entries: set<Entry>)
    requires after.outbox == Sent(s.outbox, entries)
    ensures Requests(after) == Requests(s)
  {
    assert after.outbox.Keys == s.outbox.Keys;
    forall x
      ensures x in Requests(after) <==> x in Requests(s)
    {
      assert x in Requests(s) ==> Request(x) in s.outbox;
      assert Request(x) in s.outbox <==> Request(x) in after.outbox;
    }
  }

  lemma PurgeShrinksRequests(s: Source, after: Source, entries: set<Entry>)
    requires after == s.(outbox := s.outbox - entries)
    ensures Requests(after) <= Requests(s) && |Requests(after) - s.delivered| <= |Requests(s) - s.delivered|
  {
    forall x | x in Requests(after)
      ensures x in Requests(s)
    {
      assert Request(x) in after.outbox;
    }
    SubsetIsSmaller(Requests(after) - s.delivered, Requests(s) - s.delivered);
  }

  lemma StepKeepsCounts(s: Source, step: Step)
    requires CountsOk(s) && CanStep(s, step)
    ensures CountsOk(After(s, step))
  {
    var after := After(s, step);
    match step
    case Create(orderId, _, _, _, _) =>
      if after != s {
        PendingAfter(s, after, orderId);
        CreateKeepsRequests(s, after, orderId);
        assert |PendingOrders(s) + {orderId}| <= |PendingOrders(s)| + 1;
      }
    case StockUpdated(orderId, eventId, now) =>
      if after != s {
        RequestKeepsCounts(s, orderId, s.orders[orderId].(status := CONFIRMED), CREATE, eventId, now);
      }
    case StockFailed(orderId) =>
      if after != s {
        PendingAfter(s, after, orderId);
        WasPending(s, orderId);
      }
    case Change(orderId, quantity, price, eventId, now) =>
      if MayMutate(s, orderId) {
        RequestKeepsCounts(s, orderId, s.orders[orderId].(quantity := quantity, price := price), CHANGE, eventId, now);
      }
    case Cancel(orderId, eventId, now) =>
      if MayMutate(s, orderId) {
        RequestKeepsCounts(s, orderId, s.orders[orderId].(status := CANCELLED), CANCEL, eventId, now);
      }
    case MarkSent(entries) => MarkKeepsRequests(s, after, entries);
    case PurgeSent(entries) => PurgeShrinksRequests(s, after, entries);
    case Deliver(e) =>
      SubsetIsSmaller(Requests(s) - (s.delivered + {e}), Requests(s) - s.delivered);
  }

  // ---- runs

  lemma StepKeepsInv(s: Source, step: Step)
    requires Inv(s) && CanStep(s, step)
    ensures Inv(After(s, step))
  {
    hide OrderOk, ValuesOk, CountsOk, CanStep, After;
    StepKeepsOrders(s, step);
    StepKeepsValues(s, step);
    StepKeepsCounts(s, step);
  }

  lemma StartInv(s: Source)
    requires IsStart(s)
    ensures Inv(s)
  {
    assert Requests(s) == {} && AllRequests(s) == {};
  }

  lemma {:induction false} RunKeepsInv(s: Source, run: seq<Step>)
    requires Inv(s) && IsRun(s, run)
    ensures Inv(End(s, run))
    decreases |run|
  {
    hide Inv, CanStep, After;
    if run != [] {
      StepKeepsInv(s, run[0]);
      RunKeepsInv(After(s, run[0]), run[1..]);
    }
  }

  /**
   * Whatever stock results and mutations come, repeated or out of order, the requests of an order are
   * numbered 1..n without a gap and spell nothing, or CREATE CHANGE*, with a CANCEL at the end exactly
   * when an order the partner knows of was cancelled.
   */
  lemma RequestsAreNumbered(start: Source, run: seq<Step>, orderId: int)
    requires IsStart(start) && IsRun(start, run)
    ensures var s := End(start, run);
            var requests := RequestsOf(s.history, orderId);
            && NumberedFromOne(requests)
            && (orderId in s.orders ==>
                  |requests| == s.orders[orderId].partnerSequence && Spells(requests, s.orders[orderId].status))
            && (orderId !in s.orders ==> requests == [])
  {
    StartInv(start);
    RunKeepsInv(start, run);
    hide IsRun, End, ValuesOk, CountsOk;
    assert OrderOk(End(start, run), orderId);
  }

  // ---- what the partner may rely on

  /** The events of the source by their id. */
  function Catalogue(history: seq<Event>): map<EventId, Event> {
    if history == [] then map[]
    else Catalogue(history[..|history| - 1])[history[|history| - 1].eventId := history[|history| - 1]]
  }

  lemma {:induction false} CatalogueIsHistory(history: seq<Event>, id: EventId)
    ensures id in Catalogue(history) ==>
          exists i :: 0 <= i < |history| && history[i] == Catalogue(history)[id] && history[i].eventId == id
  {
    if history != [] {
      var n := |history| - 1;
      CatalogueIsHistory(history[..n], id);
      if id in Catalogue(history) && id != history[n].eventId {
        var i :| 0 <= i < n && history[..n][i] == Catalogue(history[..n])[id] && history[..n][i].eventId == id;
        assert history[i] == Catalogue(history)[id];
      }
    }
  }

  lemma {:induction false} RequestsAreOrdered(history: seq<Event>, orderId: int, i: nat)
    requires i < |history| && history[i].orderId == orderId
    ensures exists k :: 0 <= k < |RequestsOf(history, orderId)| && RequestsOf(history, orderId)[k] == history[i]
                     && k == |RequestsOf(history[..i], orderId)|
  {
    var n := |history| - 1;
    var before := RequestsOf(history[..n], orderId);
    if i == n {
      assert RequestsOf(history, orderId)[|before|] == history[i];
    } else {
      RequestsAreOrdered(history[..n], orderId, i);
      var k :| 0 <= k < |before| && before[k] == history[..n][i] && k == |RequestsOf(history[..n][..i], orderId)|;
      assert history[..n][..i] == history[..i];
      assert RequestsOf(history, orderId)[k] == history[i];
    }
  }

  lemma {:induction false} LongerHasMore(history: seq<Event>, orderId: int, i: nat, j: nat)
    requires i < j <= |history| && history[i].orderId == orderId
    ensures |RequestsOf(history[..i], orderId)| < |RequestsOf(history[..j], orderId)|
    decreases j
  {
    assert history[..j][..j - 1] == history[..j - 1];
    if i < j - 1 {
      LongerHasMore(history, orderId, i, j - 1);
    }
  }

  /** No two requests of one order carry the same number. */
  lemma PlacesAreTaken(s: Source, i: nat, j: nat)
    requires Inv(s) && i < j < |s.history| && s.history[i].orderId == s.history[j].orderId
    ensures s.history[i].sequence < s.history[j].sequence
  {
    var orderId := s.history[i].orderId;
    assert OrderOk(s, orderId);
    RequestsAreOrdered(s.history, orderId, i);
    RequestsAreOrdered(s.history, orderId, j);
    LongerHasMore(s.history, orderId, i, j);
  }

  lemma {:induction false} HistoryIsCatalogued(history: seq<Event>, i: nat)
    requires i < |history| && forall a, b :: 0 <= a < b < |history| ==> history[a].eventId != history[b].eventId
    ensures Known(Catalogue(history), history[i])
  {
    var n := |history| - 1;
    if i < n {
      HistoryIsCatalogued(history[..n], i);
      assert history[i].eventId != history[n].eventId;
    }
  }

  lemma HistoryIsWellNumbered(s: Source)
    requires Inv(s)
    ensures WellNumbered(Catalogue(s.history))
    ensures forall i :: 0 <= i < |s.history| ==> Known(Catalogue(s.history), s.history[i])
  {
    var catalogue := Catalogue(s.history);
    forall id | id in catalogue
      ensures catalogue[id].eventId == id && catalogue[id].Valid()
    {
      CatalogueIsHistory(s.history, id);
    }
    forall a, b | a in catalogue && b in catalogue && SamePlace(catalogue[a], catalogue[b])
      ensures a == b
    {
      CatalogueIsHistory(s.history, a);
      CatalogueIsHistory(s.history, b);
      var i :| 0 <= i < |s.history| && s.history[i] == catalogue[a];
      var j :| 0 <= j < |s.history| && s.history[j] == catalogue[b];
      hide Inv;
      if i < j {
        PlacesAreTaken(s, i, j);
      } else if j < i {
        PlacesAreTaken(s, j, i);
      }
    }
    forall i | 0 <= i < |s.history|
      ensures Known(catalogue, s.history[i])
    {
      HistoryIsCatalogued(s.history, i);
    }
  }

  /**
   * What the delivery side takes for granted of its events: an id stands for one payload, sequences
   * start at 1, and no two events of an order carry the same one.
   */
  lemma SourceIsWellNumbered(start: Source, run: seq<Step>)
    requires IsStart(start) && IsRun(start, run)
    ensures WellNumbered(Catalogue(End(start, run).history))
    ensures forall i :: 0 <= i < |End(start, run).history| ==>
          Known(Catalogue(End(start, run).history), End(start, run).history[i])
  {
    StartInv(start);
    RunKeepsInv(start, run);
    var s := End(start, run);
    hide IsRun, End, CountsOk, IsStart;
    HistoryIsWellNumbered(s);
  }

  // ---- the global budget of unfinished work

  lemma CountMissesForgotten(s: Source)
    requires CountsOk(s)
    ensures Unfinished(s) == CountUnfinished(s) + |Forgotten(s)|
  {
    hide PendingOrders, Requests, AllRequests;
    assert AllRequests(s) - s.delivered == (Requests(s) - s.delivered) + Forgotten(s);
  }

  /** What the database counts stays within 200, and falls short of the truth by exactly the forgotten requests. */
  lemma CountedStaysWithinLimit(start: Source, run: seq<Step>)
    requires IsStart(start) && IsRun(start, run)
    ensures CountUnfinished(End(start, run)) <= UNFINISHED_LIMIT
    ensures Unfinished(End(start, run)) == CountUnfinished(End(start, run)) + |Forgotten(End(start, run))|
  {
    StartInv(start);
    RunKeepsInv(start, run);
    CountMissesForgotten(End(start, run));
    hide IsRun, End, OrderOk, ValuesOk, CountUnfinished, Unfinished, Forgotten;
  }

  /** The step deletes no row whose request is still undelivered. */
  ghost predicate Remembers(s: Source, step: Step) {
    step.PurgeSent? ==> forall e :: Request(e) in step.entries ==> e in s.delivered
  }

  ghost predicate AlwaysRemembers(s: Source, run: seq<Step>)
    decreases |run|
  {
    run == [] || (Remembers(s, run[0]) && AlwaysRemembers(After(s, run[0]), run[1..]))
  }

  lemma NothingForgotten(s: Source)
    ensures Forgotten(s) == {} <==> forall x :: x in AllRequests(s) ==> x in Requests(s) || x in s.delivered
  {
    hide Requests, AllRequests;
    assert forall x :: x in Forgotten(s) <==> x in AllRequests(s) && x !in Requests(s) && x !in s.delivered;
  }

  lemma RequestIsRemembered(
    s: Source, orderId: int, order: OrderState, operation: Operation, eventId: EventId, now: int)
    requires Forgotten(s) == {}
    ensures Forgotten(WithRequest(s, orderId, order, operation, eventId, now)) == {}
  {
    var after, e :=
      WithRequest(s, orderId, order, operation, eventId, now), RequestOf(orderId, order, operation, eventId, now);
    RequestAdds(s, after, e);
    HistoryAdds(s, after, e);
    hide Requests, AllRequests, WithRequest;
    NothingForgotten(s);
    assert forall x :: x in AllRequests(after) ==> x in Requests(after) || x in after.delivered;
  }

  lemma PurgeForgetsNothing(s: Source, entries: set<Entry>)
    requires Forgotten(s) == {} && Remembers(s, PurgeSent(entries))
    ensures Forgotten(s.(outbox := s.outbox - entries)) == {}
  {
    var after := s.(outbox := s.outbox - entries);
    NothingForgotten(s);
    forall x | x in AllRequests(after)
      ensures x in Requests(after) || x in after.delivered
    {
      assert x in AllRequests(s);
      assert x in Requests(s) && x !in s.delivered ==> Request(x) in after.outbox;
    }
    NothingForgotten(after);
  }

  lemma SameForgotten(s: Source, after: Source)
    requires Forgotten(s) == {} && after.history == s.history && s.delivered <= after.delivered
    requires Requests(after) == Requests(s) || after.outbox == s.outbox
    ensures Forgotten(after) == {}
  {
    NothingForgotten(s);
    NothingForgotten(after);
    assert AllRequests(after) == AllRequests(s) && Requests(after) == Requests(s);
  }

  lemma StepForgetsNothing(s: Source, step: Step)
    requires CanStep(s, step) && Remembers(s, step) && Forgotten(s) == {}
    ensures Forgotten(After(s, step)) == {}
  {
    var after := After(s, step);
    hide Forgotten, CanStep, Remembers, OutboxFull, BusinessFull;
    match step
    case StockUpdated(orderId, eventId, now) =>
      if after != s {
        RequestIsRemembered(s, orderId, s.orders[orderId].(status := CONFIRMED), CREATE, eventId, now);
      }
    case Change(orderId, quantity, price, eventId, now) =>
      if MayMutate(s, orderId) {
        RequestIsRemembered(s, orderId, s.orders[orderId].(quantity := quantity, price := price), CHANGE, eventId, now);
      }
    case Cancel(orderId, eventId, now) =>
      if MayMutate(s, orderId) {
        RequestIsRemembered(s, orderId, s.orders[orderId].(status := CANCELLED), CANCEL, eventId, now);
      }
    case PurgeSent(entries) => PurgeForgetsNothing(s, entries);
    case Create(orderId, _, _, _, _) =>
      if after != s {
        CreateKeepsRequests(s, after, orderId);
        SameForgotten(s, after);
      }
    case MarkSent(entries) =>
      MarkKeepsRequests(s, after, entries);
      SameForgotten(s, after);
    case StockFailed(_) => SameForgotten(s, after);
    case Deliver(_) => SameForgotten(s, after);
  }

  lemma {:induction false} RunForgetsNothing(s: Source, run: seq<Step>)
    requires IsRun(s, run) && AlwaysRemembers(s, run) && Forgotten(s) == {}
    ensures Forgotten(End(s, run)) == {}
    decreases |run|
  {
    hide CanStep, After, Remembers, Forgotten;
    if run != [] {
      StepForgetsNothing(s, run[0]);
      RunForgetsNothing(After(s, run[0]), run[1..]);
    }
  }

  /** While sent rows are kept until they are delivered, what is really unfinished stays within 200. */
  lemma UnfinishedStaysWithinLimit(start: Source, run: seq<Step>)
    requires IsStart(start) && IsRun(start, run) && AlwaysRemembers(start, run)
    ensures Unfinished(End(start, run)) <= UNFINISHED_LIMIT
  {
    CountedStaysWithinLimit(start, run);
    RunForgetsNothing(start, run);
  }

  // ---- and what happens when they are deleted earlier

  lemma {:induction false} RunsJoin(s: Source, first: seq<Step>, second: seq<Step>)
    requires IsRun(s, first) && IsRun(End(s, first), second)
    ensures IsRun(s, first + second) && End(s, first + second) == End(End(s, first), second)
    decreases |first|
  {
    hide CanStep, After;
    if first == [] {
      assert first + second == second;
    } else {
      assert (first + second)[1..] == first[1..] + second;
      RunsJoin(After(s, first[0]), first[1..], second);
    }
  }

  /** One order is created, confirmed and announced, and its sent rows are deleted before it is delivered. */
  function Round(n: nat): seq<Step> {
    var e := Event(n, 0, 0, n, 1, CREATE, 1, 1, 0.0);
    [Create(n, 0, 0, 1, 0.0), StockUpdated(n, n, 1), MarkSent({Created(n), Request(e)}),
      PurgeSent({Created(n), Request(e)})]
  }

  function Rounds(n: nat): seq<Step> {
    if n == 0 then [] else Rounds(n - 1) + Round(n)
  }

  /** After n rounds: n orders confirmed, an empty outbox, and n requests that nobody counts any more. */
  ghost predicate IsAfterRounds(s: Source, n: nat) {
    && s.outbox == map[] && s.delivered == {} && |s.history| == n && PendingOrders(s) == {}
    && (forall id :: id in s.orders ==> 1 <= id <= n)
    && (forall i :: 0 <= i < n ==> s.history[i].eventId == i + 1)
  }

  lemma CreateGoesThrough(s: Source, k: nat)
    requires k >= 1 && IsAfterRounds(s, k - 1)
    ensures var step := Create(k, 0, 0, 1, 0.0);
            CanStep(s, step)
            && After(s, step)
                  == s.(orders := s.orders[k := OrderState(0, 0, 1, 0.0, OrderSource.PENDING, 0)],
                  outbox := map[Created(k) := false])
  {
    assert Requests(s) == {} && |s.outbox| == 0;
  }

  lemma ConfirmGoesThrough(s: Source, k: nat)
    requires k >= 1 && k in s.orders && s.orders[k] == OrderState(0, 0, 1, 0.0, OrderSource.PENDING, 0)
    requires s.outbox == map[Created(k) := false] && IsFresh(s, k)
    ensures var step, e := StockUpdated(k, k, 1), Event(k, 0, 0, k, 1, CREATE, 1, 1, 0.0);
            CanStep(s, step)
            && After(s, step) == s.(orders := s.orders[k := OrderState(0, 0, 1, 0.0, CONFIRMED, 1)],
                                    outbox := map[Created(k) := false, Request(e) := false], history := s.history + [e])
  {
    assert s.outbox.Keys == {Created(k)};
    assert |s.outbox| == 1;
  }

  lemma DeletionGoesThrough(s: Source, k: nat, e: Event)
    requires s.outbox == map[Created(k) := false, Request(e) := false]
    ensures var gone := {Created(k), Request(e)};
            CanStep(s, MarkSent(gone)) && CanStep(After(s, MarkSent(gone)), PurgeSent(gone))
            && After(After(s, MarkSent(gone)), PurgeSent(gone)) == s.(outbox := map[])
  {
    var gone := {Created(k), Request(e)};
    assert s.outbox.Keys == gone;
    var marked := After(s, MarkSent(gone));
    assert marked.outbox.Keys == gone && forall entry :: entry in gone ==> marked.outbox[entry];
    assert marked.outbox - gone == map[];
  }

  lemma FreshAfterRounds(s: Source, n: nat)
    requires IsAfterRounds(s, n)
    ensures IsFresh(s, n + 1)
  {
    assert forall x :: x in s.history ==> exists i :: 0 <= i < n && s.history[i] == x;
  }

  lemma RoundState(s: Source, after: Source, k: nat, e: Event)
    requires k >= 1 && IsAfterRounds(s, k - 1) && e.eventId == k
    requires after.outbox == map[] && after.delivered == {} && after.history == s.history + [e]
    requires after.orders.Keys == s.orders.Keys + {k} && after.orders[k].status == CONFIRMED
    requires forall id :: id in s.orders ==> id in after.orders && after.orders[id] == s.orders[id]
    ensures IsAfterRounds(after, k)
  {
    forall id | id in after.orders
      ensures after.orders[id].status != OrderSource.PENDING && 1 <= id <= k
    {
      if id in s.orders {
        assert id !in PendingOrders(s);
      }
    }
  }

  lemma FourSteps(s: Source, run: seq<Step>)
    requires |run| == 4
    requires var s1 := After(s, run[0]);
             var s2 := After(s1, run[1]);
             var s3 := After(s2, run[2]);
             CanStep(s, run[0]) && CanStep(s1, run[1]) && CanStep(s2, run[2]) && CanStep(s3, run[3])
    ensures IsRun(s, run) && End(s, run) == After(After(After(After(s, run[0]), run[1]), run[2]), run[3])
  {
    hide CanStep, After;
    assert run[1..][0] == run[1] && run[1..][1..] == run[2..] && run[2..][0] == run[2] && run[2..][1..] == run[3..];
    assert run[3..][0] == run[3] && run[3..][1..] == [];
    var s1 := After(s, run[0]);
    var s2 := After(s1, run[1]);
    var s3 := After(s2, run[2]);
    assert IsRun(s3, run[3..]) && End(s3, run[3..]) == After(s3, run[3]);
    assert IsRun(s2, run[2..]) && End(s2, run[2..]) == End(s3, run[3..]);
    assert IsRun(s1, run[1..]) && End(s1, run[1..]) == End(s2, run[2..]);
  }

  lemma SameHistoryIsFresh(s: Source, after: Source, eventId: EventId)
    requires IsFresh(s, eventId) && after.history == s.history
    ensures IsFresh(after, eventId)
  {
  }

  lemma RoundGoesThrough(s: Source, n: nat)
    requires IsAfterRounds(s, n)
    ensures IsRun(s, Round(n + 1)) && IsAfterRounds(End(s, Round(n + 1)), n + 1)
  {
    hide CanStep, After, IsRun, End, IsFresh, PendingOrders;
    var k, e := n + 1, Event(n + 1, 0, 0, n + 1, 1, CREATE, 1, 1, 0.0);
    var create, confirm, gone := Create(k, 0, 0, 1, 0.0), StockUpdated(k, k, 1), {Created(k), Request(e)};
    CreateGoesThrough(s, k);
    var s1 := After(s, create);
    FreshAfterRounds(s, n);
    SameHistoryIsFresh(s, s1, k);
    ConfirmGoesThrough(s1, k);
    var s2 := After(s1, confirm);
    DeletionGoesThrough(s2, k, e);
    FourSteps(s, Round(k));
    RoundState(s, After(After(s2, MarkSent(gone)), PurgeSent(gone)), k, e);
  }

  lemma {:induction false} RoundsGoThrough(n: nat)
    ensures IsRun(Source(map[], map[], {}, []), Rounds(n))
    ensures IsAfterRounds(End(Source(map[], map[], {}, []), Rounds(n)), n)
  {
    var start := Source(map[], map[], {}, []);
    hide Round, CanStep, After;
    if n == 0 {
      assert PendingOrders(start) == {};
    } else {
      RoundsGoThrough(n - 1);
      RoundGoesThrough(End(start, Rounds(n - 1)), n - 1);
      RunsJoin(start, Rounds(n - 1), Round(n));
    }
  }

  lemma {:induction false} HistorySize(history: seq<Event>)
    requires forall i, j :: 0 <= i < j < |history| ==> history[i].eventId != history[j].eventId
    ensures |set e | e in history| == |history|
  {
    if history != [] {
      var n := |history| - 1;
      HistorySize(history[..n]);
      assert (set e | e in history) == (set e | e in history[..n]) + {history[n]};
      assert history[n] !in history[..n];
    }
  }

  /** With early deletion there is no bound at all: any number of requests can be unfinished at once. */
  lemma EarlyDeletionBreaksLimit(n: nat)
    ensures var start := Source(map[], map[], {}, []);
            IsStart(start) && IsRun(start, Rounds(n)) && Unfinished(End(start, Rounds(n))) == n
  {
    var start := Source(map[], map[], {}, []);
    RoundsGoThrough(n);
    var s := End(start, Rounds(n));
    assert PendingOrders(start) == {};
    hide IsRun, End, Rounds;
    HistorySize(s.history);
    assert AllRequests(s) - {} == AllRequests(s);
  }

  predicate NeverPurges(run: seq<Step>) {
    forall i :: 0 <= i < |run| ==> !run[i].PurgeSent?
  }

  lemma {:induction false} NeverPurgesRemembers(s: Source, run: seq<Step>)
    requires NeverPurges(run)
    ensures AlwaysRemembers(s, run)
    decreases |run|
  {
    if run != [] {
      NeverPurgesRemembers(After(s, run[0]), run[1..]);
    }
  }

  /** Every run possible with or without a retention period for sent rows keeps what is really unfinished within 200. */
  ghost predicate LimitHolds(retention: bool) {
    forall start, run ::
      IsStart(start) && IsRun(start, run) && (retention || NeverPurges(run)) ==>
        Unfinished(End(start, run)) <= UNFINISHED_LIMIT
  }

  /** The limit is real exactly when no retention period is set. */
  lemma LimitHoldsExactlyWithoutRetention(retention: bool)
    ensures LimitHolds(retention) <==> !retention
  {
    if retention {
      EarlyDeletionBreaksLimit(UNFINISHED_LIMIT + 1);
    } else {
      hide IsRun, IsStart, Unfinished, AlwaysRemembers;
      forall start, run | IsStart(start) && IsRun(start, run) && NeverPurges(run)
        ensures Unfinished(End(start, run)) <= UNFINISHED_LIMIT
      {
        NeverPurgesRemembers(start, run);
        UnfinishedStaysWithinLimit(start, run);
      }
    }
  }
}
