/** The seller's order endpoint: two critical sections around the service time of a request. */
module SellerLedgers {
  import opened Domain
  import opened SellerApi

  const BAD_REQUEST := 400

  class SellerLedger {
    var effects: map<EventId, Event>
    var orders: map<OrderKey, OrderRow>
    var log: seq<Event>
    var attemptCounts: map<EventId, nat>
    var attempts: seq<Attempt>

    ghost function Content(): Seller
      reads this
    {
      Seller(effects, orders, log, attemptCounts, attempts)
    }

    constructor ()
      ensures Content() == NEW_SELLER
    {
      effects, orders, log, attemptCounts, attempts := map[], map[], [], map[], [];
    }

    /** Counts and logs a request, unless its idempotency key is not its event id. */
    method Arrive(data: Event, key: EventId) returns (refusal: Option<int>, count: nat, attempt: nat)
      modifies this
      ensures refusal == if key == data.eventId then None else Some(BAD_REQUEST)
      ensures Content() == if refusal == None then Arrived(old(Content()), data) else old(Content())
      ensures refusal == None ==>
            count == Count(old(Content()), key) && attempt == |old(attempts)| && attempt < |attempts|
    {
      refusal, count, attempt := None, 0, |attempts|;
      if key != data.eventId { return Some(BAD_REQUEST), 0, 0; }
      count := if key in attemptCounts then attemptCounts[key] else 0;
      attemptCounts := attemptCounts[key := count + 1];
      attempts := attempts + [Attempt(data, None, false)];
    }

    /** Decides a request that arrived earlier; others may have been decided in the meantime. */
    method Decide(data: Event, count: nat, attempt: nat, policy: Policy) returns (status: int, dropped: bool)
      requires attempt < |attempts|
      modifies this
      ensures status == Status(old(Content()), data, count, policy)
      ensures dropped <==> Dropped(old(Content()), data, count, policy)
      ensures Content() == Decided(old(Content()), data, count, attempt, policy)
    {
      status := OK;
      var prior := if data.eventId in effects then Some(effects[data.eventId]) else None;
      var state := if data.Key() in orders then orders[data.Key()].sequence else 0;
      if count < policy.failureCount {
        status := UNAVAILABLE;
      } else if prior.Some? && policy.idempotent {
        if prior.value != data {
          status := CONFLICT;
        }
      } else if data.sequence != state + 1 {
        status := CONFLICT;
      } else {
        effects := effects[data.eventId := data];
        orders := orders[data.Key() := OrderRow(data.sequence, data.operation, data.quantity, data.price)];
        log := log + [data];
      }
      dropped := status == OK && policy.dropResponse && count == 0;
      attempts := attempts[attempt := Attempt(attempts[attempt].event, Some(status), dropped)];
    }
  }

  // ---- a request that comes again

  datatype Op =
    | Arrival(event: Event)
    | Decision(event: Event, count: nat, attempt: nat, policy: Policy)

  /** The seller after arrivals and decisions of any requests, in any order and under any policies. */
  function Served(seller: Seller, ops: seq<Op>): Seller {
    if ops == [] then seller
    else
      var before := Served(seller, ops[..|ops| - 1]);
      match ops[|ops| - 1]
      case Arrival(e) => Arrived(before, e)
      case Decision(e, count, attempt, policy) =>
        if attempt < |before.attempts| then Decided(before, e, count, attempt, policy) else before
  }

  /** The event is applied and its order is at least that far. */
  predicate IsApplied(seller: Seller, e: Event) {
    && e.eventId in seller.effects && seller.effects[e.eventId] == e
    && e.sequence <= LastSequence(seller.orders, e.Key())
  }

  /** An event id stands for one payload in everything that is sent. */
  predicate OnePayload(ops: seq<Op>, e: Event) {
    forall i :: 0 <= i < |ops| && ops[i].event.eventId == e.eventId ==> ops[i].event == e
  }

  function Times(log: seq<Event>, e: Event): nat {
    if log == [] then 0 else Times(log[..|log| - 1], e) + (if log[|log| - 1] == e then 1 else 0)
  }

  lemma DecisionKeepsApplied(seller: Seller, e: Event, data: Event, count: nat, attempt: nat, policy: Policy)
    requires IsApplied(seller, e) && attempt < |seller.attempts| && (data.eventId == e.eventId ==> data == e)
    ensures var after := Decided(seller, data, count, attempt, policy);
            IsApplied(after, e) && Times(after.log, e) == Times(seller.log, e)
  {
    assert (seller.log + [data])[..|seller.log|] == seller.log;
    hide Status, Dropped;
  }

  lemma {:induction false} StaysApplied(seller: Seller, e: Event, ops: seq<Op>)
    requires IsApplied(seller, e) && OnePayload(ops, e)
    ensures IsApplied(Served(seller, ops), e) && Times(Served(seller, ops).log, e) == Times(seller.log, e)
  {
    if ops != [] {
      var rest, op := ops[..|ops| - 1], ops[|ops| - 1];
      StaysApplied(seller, e, rest);
      var before := Served(seller, rest);
      if op.Decision? && op.attempt < |before.attempts| {
        DecisionKeepsApplied(before, e, op.event, op.count, op.attempt, op.policy);
      }
    }
  }

  /**
   * Once an event is applied, nothing that reaches the seller afterwards applies it again, and whatever
   * copy of its request is decided last leaves the books alone: it is answered 503 by an injected
   * failure, 200 by its key, and 409 by a seller that skips the key.
   */
  lemma RepeatedRequestAppliesNothing(
    seller: Seller, e: Event, ops: seq<Op>, count: nat, attempt: nat, policy: Policy)
    requires IsApplied(seller, e) && OnePayload(ops, e) && attempt < |Served(seller, ops).attempts|
    ensures Times(Served(seller, ops).log, e) == Times(seller.log, e)
    ensures var later := Served(seller, ops);
            var after := Decided(later, e, count, attempt, policy);
            && after.effects == later.effects && after.orders == later.orders && after.log == later.log
            && Status(later, e, count, policy) ==
                 if count < policy.failureCount then UNAVAILABLE else if policy.idempotent then OK else CONFLICT
  {
    StaysApplied(seller, e, ops);
  }
}
