/** What the seller's decisions keep, given that every request passed the predecessor check. */
module SellerLemmas {
  import opened Domain
  import opened InboxTables
  import opened SellerApi
  import opened DeliveryProtocol
  import opened DeliveryInvariant
  import opened TableLemmas

  lemma AppendSequence(log: seq<Event>, e: Event, key: OrderKey)
    ensures SequencesOf(log + [e], key) == SequencesOf(log, key) + if e.Key() == key then [e.sequence] else []
  {
    assert (log + [e])[..|log|] == log;
  }

  lemma EffectIsListed(log: seq<Event>, effects: Effects, e: Event)
    requires ListsOnce(log, effects) && e.eventId !in effects
    ensures ListsOnce(log + [e], effects[e.eventId := e])
  {
    var after := effects[e.eventId := e];
    forall id | id in after
      ensures after[id] in log + [e]
    {
      if id == e.eventId {
        assert (log + [e])[|log|] == e;
      } else {
        assert effects[id] in log;
      }
    }
  }

  lemma EffectIsInOrder(log: seq<Event>, orders: Orders, e: Event)
    requires ListsInOrder(log, orders) && e.sequence == LastSequence(orders, e.Key()) + 1
    requires LastSequence(orders, e.Key()) >= 0
    ensures ListsInOrder(log + [e], orders[e.Key() := e.Latest()])
  {
    forall key
      ensures SequencesOf(log + [e], key) == UpTo(LastSequence(orders[e.Key() := e.Latest()], key))
    {
      AppendSequence(log, e, key);
      hide SequencesOf;
      assert SequencesOf(log, key) == UpTo(LastSequence(orders, key));
    }
  }

  /** A fresh effect is the next sequence of its order and a new event. */
  lemma EffectKeepsSeller(catalogue: map<EventId, Event>, seller: Seller, e: Event)
    requires WellNumbered(catalogue) && SellerOk(catalogue, seller) && Known(catalogue, e)
    requires e.eventId !in seller.effects && e.sequence == LastSequence(seller.orders, e.Key()) + 1
    ensures SellerOk(catalogue, WithEffect(seller, e))
  {
    assert LastSequence(seller.orders, e.Key()) >= 0;
    hide LedgerOk, ListsOnce, ListsInOrder, WellNumbered;
    RecordKeepsLedger(catalogue, seller.effects, seller.orders, e);
    EffectIsListed(seller.log, seller.effects, e);
    EffectIsInOrder(seller.log, seller.orders, e);
  }

  /**
   * What becomes of a request that passed the predecessor check, under any fault policy: it carries an
   * applied event or the next one of its order, so the only way to a 409 is to skip the key of an
   * applied event.
   */
  lemma ConflictNeedsForgottenKey(
    catalogue: map<EventId, Event>, orders: Orders, seller: Seller, e: Event, count: nat, policy: Policy)
    requires WellNumbered(catalogue) && SellerOk(catalogue, seller) && GapOk(orders, seller.orders)
    requires Known(catalogue, e)
    requires e.sequence <= LastSequence(orders, e.Key()) + 1
    ensures Status(seller, e, count, policy) ==
      if count < policy.failureCount then UNAVAILABLE
      else if e.eventId in seller.effects && !policy.idempotent then CONFLICT
      else OK
    ensures Applies(seller, e, count, policy) <==> count >= policy.failureCount && e.eventId !in seller.effects
    ensures e.eventId !in seller.effects ==> e.sequence == LastSequence(seller.orders, e.Key()) + 1
    ensures Dropped(seller, e, count, policy) <==>
          policy.dropResponse && count == policy.failureCount == 0
            && (e.eventId in seller.effects ==> policy.idempotent)
  {
    InLedger(catalogue, seller.effects, seller.orders, e);
    assert LastSequence(orders, e.Key()) <= LastSequence(seller.orders, e.Key());
  }

  /** The request log does not matter to the seller's books. */
  lemma LogKeepsSeller(
    catalogue: map<EventId, Event>, seller: Seller, counts: map<EventId, nat>, attempts: seq<Attempt>)
    requires SellerOk(catalogue, seller)
    ensures SellerOk(catalogue, seller.(counts := counts, attempts := attempts))
  {
    hide LedgerOk, ListsOnce, ListsInOrder;
  }

  /**
   * A decision answers its own attempt, in the log as over the wire, and touches the books only when it applies the
   * event.
   */
  lemma DecidedIs(seller: Seller, e: Event, count: nat, attempt: nat, policy: Policy)
    requires attempt < |seller.attempts|
    ensures var after, status := Decided(seller, e, count, attempt, policy), Status(seller, e, count, policy);
            && |after.attempts| == |seller.attempts|
            && (forall i :: 0 <= i < |after.attempts| ==>
                  after.attempts[i] ==
                    if i == attempt then
                      Attempt(seller.attempts[i].event, Some(status), Dropped(seller, e, count, policy))
                    else seller.attempts[i])
            && after == (if Applies(seller, e, count, policy) then WithEffect(seller, e) else seller)
                          .(counts := seller.counts, attempts := after.attempts)
  {
    hide Status, Applies, Dropped;
  }

  /**
   * Any request whatever, whether or not its sender kept to the protocol: which answer it gets, and that it is
   * applied exactly with a 200 to an event that is not in the books or whose key is disregarded.
   */
  lemma AnswerTells(seller: Seller, e: Event, count: nat, policy: Policy)
    ensures var status := Status(seller, e, count, policy);
            var known := e.eventId in seller.effects && policy.idempotent;
            var key := OrderKey(e.sellerId, e.orderId);
            var next := e.sequence == (if key in seller.orders then seller.orders[key].sequence else 0) + 1;
            && (status == 503 <==> count < policy.failureCount)
            && (status == 409 <==>
                  count >= policy.failureCount && if known then seller.effects[e.eventId] != e else !next)
            && (status == 200 <==>
                  count >= policy.failureCount && if known then seller.effects[e.eventId] == e else next)
            && (Applies(seller, e, count, policy) <==> status == 200 && !known)
  {
  }

  /** An applied event is in the books under its id and moves its order to it, and nothing else changes there. */
  lemma EffectTells(seller: Seller, e: Event, id: EventId, key: OrderKey)
    ensures var after := WithEffect(seller, e);
            && after.effects.Keys == seller.effects.Keys + {e.eventId} && after.effects[e.eventId] == e
            && (id in seller.effects && id != e.eventId ==> after.effects[id] == seller.effects[id])
            && after.orders.Keys == seller.orders.Keys + {OrderKey(e.sellerId, e.orderId)}
            && after.orders[OrderKey(e.sellerId, e.orderId)]
               == OrderRow(e.sequence, e.operation, e.quantity, e.price)
            && (key in seller.orders && key != OrderKey(e.sellerId, e.orderId) ==>
                  after.orders[key] == seller.orders[key])
            && after.log == seller.log + [e] && after.counts == seller.counts && after.attempts == seller.attempts
  {
  }

  lemma EffectKeepsGap(orders: Orders, sellerOrders: Orders, e: Event)
    requires GapOk(orders, sellerOrders) && e.sequence == LastSequence(sellerOrders, e.Key()) + 1
    requires e.sequence <= LastSequence(orders, e.Key()) + 1
    ensures GapOk(orders, sellerOrders[e.Key() := e.Latest()])
  {
    forall key
      ensures LastSequence(orders, key) <= LastSequence(sellerOrders[e.Key() := e.Latest()], key)
            <= LastSequence(orders, key) + 1
    {
      assert LastSequence(orders, key) <= LastSequence(sellerOrders, key) <= LastSequence(orders, key) + 1;
    }
  }

  lemma DecideKeepsSeller(
    catalogue: map<EventId, Event>, orders: Orders, seller: Seller, e: Event, count: nat, attempt: nat,
    policy: Policy)
    requires WellNumbered(catalogue) && SellerOk(catalogue, seller) && GapOk(orders, seller.orders)
    requires Known(catalogue, e)
    requires e.sequence <= LastSequence(orders, e.Key()) + 1 && attempt < |seller.attempts|
    ensures var after := Decided(seller, e, count, attempt, policy);
            && SellerOk(catalogue, after) && GapOk(orders, after.orders)
            && |after.attempts| == |seller.attempts|
            && (forall id :: id in seller.effects ==> id in after.effects)
            && (Status(seller, e, count, policy) == OK ==> e.eventId in after.effects)
  {
    ConflictNeedsForgottenKey(catalogue, orders, seller, e, count, policy);
    DecidedIs(seller, e, count, attempt, policy);
    hide LedgerOk, SellerOk, SequencesOf, Known, WellNumbered, Status, Applies, GapOk, Decided;
    var after := Decided(seller, e, count, attempt, policy);
    if Applies(seller, e, count, policy) {
      EffectKeepsSeller(catalogue, seller, e);
      LogKeepsSeller(catalogue, WithEffect(seller, e), seller.counts, after.attempts);
      EffectKeepsGap(orders, seller.orders, e);
    } else {
      LogKeepsSeller(catalogue, seller, seller.counts, after.attempts);
    }
  }

  /** An arrival counts its key once more, is logged without a status, and touches no book. */
  lemma ArrivalTells(seller: Seller, e: Event, id: EventId)
    ensures var after := Arrived(seller, e);
            && Count(after, id) == Count(seller, id) + (if id == e.eventId then 1 else 0)
            && after.attempts == seller.attempts + [Attempt(e, None, false)]
            && after.effects == seller.effects && after.orders == seller.orders && after.log == seller.log
  {
  }

  lemma ArriveKeepsSeller(catalogue: map<EventId, Event>, seller: Seller, e: Event)
    requires SellerOk(catalogue, seller)
    ensures SellerOk(catalogue, Arrived(seller, e))
  {
    LogKeepsSeller(catalogue, seller, Arrived(seller, e).counts, Arrived(seller, e).attempts);
  }
}
