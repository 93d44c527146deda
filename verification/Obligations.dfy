/**
 * What the source owes its users, as a book: the operations it has accepted, the share of the quota each
 * seller has in use, and the requests it wrote for the partner.
 */
module Obligations {
  import opened Domain

  const OPERATIONS_PER_ORDER := 3

  datatype Obligation = Obligation(event: Event, createdAt: int, resolvedAt: Option<int>)

  /** Partner requests stay in the order of their acceptance. */
  datatype Book = Book(obligations: map<EventId, Obligation>, used: map<SellerId, int>, outbox: seq<Event>)

  const EMPTY := Book(map[], map[], [])

  datatype Refusal = SellerQuota | OrderNotAccepted

  datatype Acceptance = Accepted(createdAt: int) | Rejected(reason: Refusal)

  function Used(book: Book, sellerId: SellerId): int {
    if sellerId in book.used then book.used[sellerId] else 0
  }

  /** The order's first operation has been accepted. */
  predicate OrderAccepted(book: Book, key: OrderKey) {
    exists id ::
      id in book.obligations && book.obligations[id].event.Key() == key && book.obligations[id].event.sequence == 1
  }

  /** The answer depends on the book alone; asking again for an accepted operation changes nothing about it. */
  function Answer(book: Book, e: Event, quota: int, now: int): Acceptance {
    if e.eventId in book.obligations then Accepted(book.obligations[e.eventId].createdAt)
    else if quota > 0 && e.sequence == 1 && Used(book, e.sellerId) + OPERATIONS_PER_ORDER > quota
      then Rejected(SellerQuota)
    else if quota > 0 && e.sequence != 1 && !OrderAccepted(book, e.Key()) then Rejected(OrderNotAccepted)
    else Accepted(now)
  }

  /** The quota table has a row for the seller of every new order that was looked at, refused or not. */
  function Looked(book: Book, e: Event, quota: int): map<SellerId, int> {
    if e.eventId !in book.obligations && quota > 0 && e.sequence == 1 && e.sellerId !in book.used
      then book.used[e.sellerId := 0]
    else book.used
  }

  function AfterAccept(book: Book, e: Event, quota: int, now: int): Book {
    var used := Looked(book, e, quota);
    if e.eventId in book.obligations || Answer(book, e, quota, now).Rejected? then book.(used := used)
    else
      Book(book.obligations[e.eventId := Obligation(e, now, None)],
           if quota > 0 && e.sequence == 1 then used[e.sellerId := Used(book, e.sellerId) + OPERATIONS_PER_ORDER]
           else used,
           book.outbox + [e.(occurredAt := now)])
  }

  predicate IsOpen(book: Book, id: EventId) {
    id in book.obligations && book.obligations[id].resolvedAt == None
  }

  function AfterResolve(book: Book, id: EventId, sellerId: SellerId, now: int): Book {
    if !IsOpen(book, id) then book
    else
      book.(obligations := book.obligations[id := book.obligations[id].(resolvedAt := Some(now))],
            used := if sellerId in book.used then book.used[sellerId := Max(book.used[sellerId] - 1, 0)] else book.used)
  }

  class DeliveryObligations {
    var obligations: map<EventId, Obligation>
    var used: map<SellerId, int>
    var outbox: seq<Event>

    ghost function Content(): Book
      reads this
    {
      Book(obligations, used, outbox)
    }

    constructor ()
      ensures Content() == EMPTY
    {
      obligations, used, outbox := map[], map[], [];
    }

    /** The book gains an obligation together with its request, or the refusal leaves both lists alone. */
    method Accept(e: Event, sellerQuota: int, now: int) returns (r: Acceptance)
      modifies this
      ensures r == Answer(old(Content()), e, sellerQuota, now)
      ensures Content() == AfterAccept(old(Content()), e, sellerQuota, now)
    {
      if e.eventId in obligations { return Accepted(obligations[e.eventId].createdAt); }
      if sellerQuota > 0 {
        if e.sequence == 1 {
          if e.sellerId !in used {
            used := used[e.sellerId := 0];
          }
          if used[e.sellerId] + OPERATIONS_PER_ORDER > sellerQuota { return Rejected(SellerQuota); }
          used := used[e.sellerId := used[e.sellerId] + OPERATIONS_PER_ORDER];
        } else if !exists id ::
          id in obligations && obligations[id].event.Key() == e.Key() && obligations[id].event.sequence == 1 {
          return Rejected(OrderNotAccepted);
        }
      }
      obligations := obligations[e.eventId := Obligation(e, now, None)];
      outbox := outbox + [e.(occurredAt := now)];
      r := Accepted(now);
    }

    /** Only an open obligation changes the book, so resolving is idempotent. */
    method Resolve(eventId: EventId, sellerId: SellerId, now: int) returns (closed: nat)
      modifies this
      ensures closed == (if IsOpen(old(Content()), eventId) then 1 else 0)
      ensures Content() == AfterResolve(old(Content()), eventId, sellerId, now)
    {
      closed := 0;
      if eventId in obligations && obligations[eventId].resolvedAt == None {
        obligations := obligations[eventId := obligations[eventId].(resolvedAt := Some(now))];
        closed := 1;
      }
      if closed == 1 && sellerId in used {
        used := used[sellerId := if used[sellerId] - 1 > 0 then used[sellerId] - 1 else 0];
      }
    }
  }

  // ---- accounting

  /** The accepted operations of a seller, its accepted orders, and what was reported delivered. */
  function AcceptedOf(book: Book, sellerId: SellerId): set<Event> {
    set id | id in book.obligations && book.obligations[id].event.sellerId == sellerId :: book.obligations[id].event
  }

  function OrdersOf(book: Book, sellerId: SellerId): set<OrderKey> {
    set e | e in AcceptedOf(book, sellerId) && e.sequence == 1 :: e.Key()
  }

  function ResolvedOf(book: Book, sellerId: SellerId): set<Event> {
    set id | id in book.obligations && book.obligations[id].event.sellerId == sellerId
      && book.obligations[id].resolvedAt.Some?
      :: book.obligations[id].event
  }

  /** The books balance for a seller, and the seller is within its quota. */
  predicate Balanced(book: Book, sellerId: SellerId, quota: int) {
    && Used(book, sellerId) == OPERATIONS_PER_ORDER * |OrdersOf(book, sellerId)| - |ResolvedOf(book, sellerId)|
    && |AcceptedOf(book, sellerId)| - |ResolvedOf(book, sellerId)| <= Used(book, sellerId) <= quota
  }

  /** Nothing is open beyond what the catalogue knows. */
  ghost predicate HasKnownEvents(catalogue: map<EventId, Event>, book: Book) {
    forall id :: id in book.obligations ==> id in catalogue && book.obligations[id].event == catalogue[id]
  }

  /** And only accepted orders have operations. */
  ghost predicate WellKept(catalogue: map<EventId, Event>, book: Book) {
    && HasKnownEvents(catalogue, book)
    && (forall id :: id in book.obligations ==> OrderAccepted(book, book.obligations[id].event.Key()))
    && (forall s :: |OrdersOf(book, s)| > 0 ==> s in book.used)
  }

  function OperationsOf(catalogue: map<EventId, Event>, key: OrderKey): set<Event> {
    set id | id in catalogue && catalogue[id].Key() == key :: catalogue[id]
  }

  /** No order that can be accepted has more operations than were reserved for it. */
  ghost predicate FewOperations(catalogue: map<EventId, Event>) {
    forall id :: id in catalogue && catalogue[id].sequence == 1 ==>
      |OperationsOf(catalogue, catalogue[id].Key())| <= OPERATIONS_PER_ORDER
  }

  // ---- runs of requests and reports

  datatype Op =
    | Accept(event: Event, now: int)
    | Resolve(event: Event, now: int)

  predicate CanDo(catalogue: map<EventId, Event>, op: Op) {
    Known(catalogue, op.event)
  }

  function Done(book: Book, op: Op, quota: int): Book {
    match op
    case Accept(e, now) => AfterAccept(book, e, quota, now)
    case Resolve(e, now) => AfterResolve(book, e.eventId, e.sellerId, now)
  }

  predicate CanDoAll(catalogue: map<EventId, Event>, ops: seq<Op>) {
    forall i :: 0 <= i < |ops| ==> CanDo(catalogue, ops[i])
  }

  function DoneAll(ops: seq<Op>, quota: int): Book {
    if ops == [] then EMPTY else Done(DoneAll(ops[..|ops| - 1], quota), ops[|ops| - 1], quota)
  }

  /** Whatever requests and reports come, repeated or not, every seller's books balance. */
  ghost predicate QuotaIsConserved(catalogue: map<EventId, Event>, quota: int) {
    forall ops, sellerId :: CanDoAll(catalogue, ops) ==> Balanced(DoneAll(ops, quota), sellerId, quota)
  }
}
