/** The seller's side of the protocol: the in-memory decision behind its order endpoint. */
module SellerApi {
  import opened Domain

  const OK := 200
  const CONFLICT := 409
  const UNAVAILABLE := 503

  /** How the seller behaves towards one request; the fault policy may differ per request. */
  datatype Policy = Policy(failureCount: nat, idempotent: bool, dropResponse: bool)

  /** One entry of the request log; it has no status until the request is decided. */
  datatype Attempt = Attempt(event: Event, status: Option<int>, responseLost: bool)

  /** The log lists the applied events in the order of their effect indexes. */
  datatype Seller = Seller(
    effects: map<EventId, Event>,
    orders: map<OrderKey, OrderRow>,
    log: seq<Event>,
    counts: map<EventId, nat>,
    attempts: seq<Attempt>)

  const NEW_SELLER := Seller(map[], map[], [], map[], [])

  function Count(seller: Seller, id: EventId): nat {
    if id in seller.counts then seller.counts[id] else 0
  }

  /** The request is counted and logged when it arrives, before it is decided. */
  function Arrived(seller: Seller, data: Event): Seller {
    seller.(counts := seller.counts[data.eventId := Count(seller, data.eventId) + 1],
            attempts := seller.attempts + [Attempt(data, None, false)])
  }

  predicate Applies(seller: Seller, data: Event, count: nat, policy: Policy) {
    && count >= policy.failureCount
    && (data.eventId !in seller.effects || !policy.idempotent)
    && data.sequence == LastSequence(seller.orders, data.Key()) + 1
  }

  function Status(seller: Seller, data: Event, count: nat, policy: Policy): int {
    if count < policy.failureCount then UNAVAILABLE
    else if data.eventId in seller.effects && policy.idempotent then
      if seller.effects[data.eventId] != data then CONFLICT else OK
    else if data.sequence != LastSequence(seller.orders, data.Key()) + 1 then CONFLICT
    else OK
  }

  predicate Dropped(seller: Seller, data: Event, count: nat, policy: Policy) {
    Status(seller, data, count, policy) == OK && policy.dropResponse && count == 0
  }

  function WithEffect(seller: Seller, data: Event): Seller {
    seller.(effects := seller.effects[data.eventId := data],
            orders := seller.orders[data.Key() := data.Latest()],
            log := seller.log + [data])
  }

  function Decided(seller: Seller, data: Event, count: nat, attempt: nat, policy: Policy): Seller
    requires attempt < |seller.attempts|
  {
    var answer :=
      Attempt(seller.attempts[attempt].event, Some(Status(seller, data, count, policy)),
        Dropped(seller, data, count, policy));
    var after := if Applies(seller, data, count, policy) then WithEffect(seller, data) else seller;
    after.(attempts := seller.attempts[attempt := answer])
  }

  /** The sequences the seller applied to one order, in the order it applied them. */
  function SequencesOf(log: seq<Event>, key: OrderKey): seq<int> {
    if log == [] then []
    else
      var last := log[|log| - 1];
      SequencesOf(log[..|log| - 1], key) + if last.Key() == key then [last.sequence] else []
  }

  /** 1, 2, ..., n */
  function UpTo(n: int): (s: seq<int>)
    ensures |s| == if n > 0 then n else 0
    ensures forall i :: 0 <= i < |s| ==> s[i] == i + 1
  {
    if n <= 0 then [] else UpTo(n - 1) + [n]
  }
}
