/**
 * What an acceptance is worth: over every sequence of requests and reports, its answer never changes, its request is
 * in the outbox once, and its first report is the one that closes it.
 */
module AcceptanceTheorems {
  import opened Domain
  import opened Obligations

  // ---- one request

  /** Each answer says exactly what the book held. */
  lemma AnswerTells(book: Book, e: Event, quota: int, now: int)
    ensures var answer := Answer(book, e, quota, now);
            var known := e.eventId in book.obligations;
            var used := if e.sellerId in book.used then book.used[e.sellerId] else 0;
            var full := quota > 0 && e.sequence == 1 && used + 3 > quota;
            var orphan := quota > 0 && e.sequence != 1
                          && forall id :: id in book.obligations ==>
                               var first := book.obligations[id].event;
                               first.sellerId != e.sellerId || first.orderId != e.orderId || first.sequence != 1;
            && (known ==> answer == Accepted(book.obligations[e.eventId].createdAt))
            && (answer == Rejected(SellerQuota) <==> !known && full)
            && (answer == Rejected(OrderNotAccepted) <==> !known && orphan)
            && (!known && !full && !orphan ==> answer == Accepted(now))
  {
    if OrderAccepted(book, e.Key()) {
      var id :| id in book.obligations && book.obligations[id].event.Key() == e.Key()
        && book.obligations[id].event.sequence == 1;
    } else if e.sequence != 1 {
      forall id | id in book.obligations
        ensures var first := book.obligations[id].event;
                first.sellerId != e.sellerId || first.orderId != e.orderId || first.sequence != 1
      {
        var first := book.obligations[id].event;
        assert first.sellerId == e.sellerId && first.orderId == e.orderId ==> first.Key() == e.Key();
      }
    }
  }

  /** A refusal opens nothing, reserves nothing and tells nobody. */
  lemma RefusalOpensNothing(book: Book, e: Event, quota: int, now: int, sellerId: SellerId)
    requires Answer(book, e, quota, now).Rejected?
    ensures var after := AfterAccept(book, e, quota, now);
            && after.obligations == book.obligations && after.outbox == book.outbox
            && Used(after, sellerId) == Used(book, sellerId)
  {
    hide OrderAccepted;
  }

  // ---- over sequences of requests and reports

  /** The request is the obligation's event, dated when it was accepted. */
  predicate IsFor(request: Event, obligation: Obligation) {
    var e := obligation.event;
    request == Event(e.eventId, e.runId, e.sellerId, e.orderId, e.sequence, e.operation, obligation.createdAt,
      e.quantity, e.price)
  }

  /** The outbox holds one request for each obligation, and nothing else. */
  ghost predicate Mirrors(book: Book) {
    && |book.outbox| == |book.obligations|
    && (forall i :: 0 <= i < |book.outbox| ==>
          var id := book.outbox[i].eventId; id in book.obligations && IsFor(book.outbox[i], book.obligations[id]))
    && (forall i, j :: 0 <= i < j < |book.outbox| ==> book.outbox[i].eventId != book.outbox[j].eventId)
  }

  lemma OpenMirrors(book: Book, e: Event, now: int, used: map<SellerId, int>)
    requires Mirrors(book) && e.eventId !in book.obligations
    ensures Mirrors(Book(book.obligations[e.eventId := Obligation(e, now, None)], used,
              book.outbox + [e.(occurredAt := now)]))
  {
    var after := book.obligations[e.eventId := Obligation(e, now, None)];
    assert after.Keys == book.obligations.Keys + {e.eventId};
    assert |after.Keys| == |book.obligations.Keys| + 1;
  }

  lemma ResolveMirrors(book: Book, id: EventId, sellerId: SellerId, now: int)
    requires Mirrors(book)
    ensures Mirrors(AfterResolve(book, id, sellerId, now))
  {
    assert AfterResolve(book, id, sellerId, now).obligations.Keys == book.obligations.Keys;
  }

  lemma SameIsMirrored(book: Book, used: map<SellerId, int>)
    requires Mirrors(book)
    ensures Mirrors(book.(used := used))
  {
  }

  lemma OpMirrors(book: Book, op: Op, quota: int)
    requires Mirrors(book)
    ensures Mirrors(Done(book, op, quota))
  {
    hide Mirrors, OrderAccepted;
    match op
    case Accept(e, now) =>
      var after := AfterAccept(book, e, quota, now);
      if e.eventId in book.obligations || Answer(book, e, quota, now).Rejected? {
        SameIsMirrored(book, after.used);
      } else {
        OpenMirrors(book, e, now, after.used);
      }
    case Resolve(e, now) => ResolveMirrors(book, e.eventId, e.sellerId, now);
  }

  lemma LastOp(ops: seq<Op>, quota: int)
    requires ops != []
    ensures DoneAll(ops, quota) == Done(DoneAll(ops[..|ops| - 1], quota), ops[|ops| - 1], quota)
  {
  }

  lemma NothingMirrors(quota: int)
    ensures Mirrors(DoneAll([], quota))
  {
  }

  /** Whatever was asked and reported: the outbox has exactly one request per accepted operation, dated with it. */
  lemma {:induction false} OutboxMirrorsTheBook(ops: seq<Op>, quota: int)
    ensures Mirrors(DoneAll(ops, quota))
  {
    hide Mirrors, Done, DoneAll;
    if ops == [] {
      NothingMirrors(quota);
    } else {
      LastOp(ops, quota);
      OutboxMirrorsTheBook(ops[..|ops| - 1], quota);
      OpMirrors(DoneAll(ops[..|ops| - 1], quota), ops[|ops| - 1], quota);
    }
  }

  /** The obligation stands as it was taken, and once it is closed it stays closed at that time. */
  predicate Stands(before: Book, after: Book, id: EventId) {
    id in before.obligations ==>
      && id in after.obligations && after.obligations[id].event == before.obligations[id].event
      && after.obligations[id].createdAt == before.obligations[id].createdAt
      && (before.obligations[id].resolvedAt.Some? ==>
            after.obligations[id].resolvedAt == before.obligations[id].resolvedAt)
  }

  lemma OpLetsStand(book: Book, op: Op, quota: int, id: EventId)
    ensures Stands(book, Done(book, op, quota), id)
  {
    hide OrderAccepted;
  }

  lemma {:induction false} LetStand(ops: seq<Op>, n: nat, quota: int, id: EventId)
    requires n <= |ops|
    ensures Stands(DoneAll(ops[..n], quota), DoneAll(ops, quota), id)
  {
    hide Done, DoneAll;
    if n == |ops| {
      assert ops[..n] == ops;
    } else {
      var last := |ops| - 1;
      assert ops[..last][..n] == ops[..n];
      LetStand(ops[..last], n, quota, id);
      LastOp(ops, quota);
      OpLetsStand(DoneAll(ops[..last], quota), ops[last], quota, id);
    }
  }

  lemma AcceptedOpens(book: Book, e: Event, quota: int, now: int)
    requires Answer(book, e, quota, now).Accepted?
    ensures var after := AfterAccept(book, e, quota, now);
            && e.eventId in after.obligations
            && after.obligations[e.eventId].createdAt == Answer(book, e, quota, now).createdAt
  {
    hide OrderAccepted;
  }

  /**
   * An operation that was accepted is answered with the time of that acceptance for ever after, whatever is asked
   * and reported in between and whatever the quota has become.
   */
  lemma AcceptanceIsFinal(ops: seq<Op>, n: nat, quota: int, later: int, now: int)
    requires n < |ops| && ops[n].Accept? && Answer(DoneAll(ops[..n], quota), ops[n].event, quota, ops[n].now).Accepted?
    ensures Answer(DoneAll(ops, quota), ops[n].event, later, now)
         == Answer(DoneAll(ops[..n], quota), ops[n].event, quota, ops[n].now)
  {
    hide DoneAll;
    assert ops[..n + 1][..n] == ops[..n];
    LastOp(ops[..n + 1], quota);
    LetStand(ops, n + 1, quota, ops[n].event.eventId);
    AcceptedOpens(DoneAll(ops[..n], quota), ops[n].event, quota, ops[n].now);
  }

  /** The first report of an open operation closes it at its time, and no later report moves that time. */
  lemma FirstReportCloses(ops: seq<Op>, n: nat, quota: int)
    requires n < |ops| && ops[n].Resolve? && IsOpen(DoneAll(ops[..n], quota), ops[n].event.eventId)
    ensures var id, book := ops[n].event.eventId, DoneAll(ops, quota);
            id in book.obligations && book.obligations[id].resolvedAt == Some(ops[n].now)
  {
    hide DoneAll;
    assert ops[..n + 1][..n] == ops[..n];
    LastOp(ops[..n + 1], quota);
    LetStand(ops, n + 1, quota, ops[n].event.eventId);
  }
}
