/** Values shared by every part of the model. Identifiers are only ever compared, so they are integers. */
module Domain {

  datatype Option<+T> = None | Some(value: T)

  type EventId = int
  type SellerId = int
  type InstanceId = int

  /** Sequences are counted per order of a seller. */
  datatype OrderKey = OrderKey(sellerId: SellerId, orderId: int)

  datatype Operation = CREATE | CHANGE | CANCEL

  datatype OrderRow = OrderRow(sequence: int, operation: Operation, quantity: int, price: real)

  /** A partner order event; its sequence is its place among the operations of its order, from 1. */
  datatype Event = Event(
    eventId: EventId,
    runId: int,
    sellerId: SellerId,
    orderId: int,
    sequence: int,
    operation: Operation,
    occurredAt: int,
    quantity: int,
    price: real)
  {
    function Key(): OrderKey {
      OrderKey(sellerId, orderId)
    }

    /** What a receiver demands of an event before it stores it. */
    predicate Valid() {
      orderId > 0 && sequence > 0 && occurredAt > 0 && quantity > 0 && price >= 0.0
    }

    /** The latest state of an order, as both sides keep it. */
    function Latest(): OrderRow {
      OrderRow(sequence, operation, quantity, price)
    }
  }

  /** Sequence of the last operation an order table holds for an order; 0 when it has no row. */
  function LastSequence(orders: map<OrderKey, OrderRow>, key: OrderKey): int {
    if key in orders then orders[key].sequence else 0
  }

  /** Two events that claim one place of one order. */
  predicate SamePlace(a: Event, b: Event) {
    a.Key() == b.Key() && a.sequence == b.sequence
  }

  /**
   * What the source guarantees about its events: an event id stands for one payload, and no two
   * events of an order carry the same sequence. Sequences start at 1.
   */
  predicate WellNumbered(catalogue: map<EventId, Event>) {
    && (forall id :: id in catalogue ==> catalogue[id].eventId == id && catalogue[id].Valid())
    && (forall i, j :: i in catalogue && j in catalogue && SamePlace(catalogue[i], catalogue[j]) ==> i == j)
  }

  predicate Known(catalogue: map<EventId, Event>, e: Event) {
    e.eventId in catalogue && catalogue[e.eventId] == e
  }

  function Max(a: int, b: int): int {
    if a < b then b else a
  }

  lemma SubsetIsSmaller<T>(small: set<T>, big: set<T>)
    requires small <= big
    ensures |small| <= |big|
    ensures small != big ==> |small| < |big|
  {
    assert big == small + (big - small);
  }
}
