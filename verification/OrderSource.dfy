/**
 * The source of partner requests: orders, the stock results that confirm or fail them, user mutations,
 * and the outbox whose rows carry the requests. Each transaction is one step; one that throws rolls back.
 */
module OrderSource {
  import opened Domain

  datatype Status = PENDING | CONFIRMED | CANCELLED

  datatype OrderState = OrderState(sellerId: SellerId, runId: int, quantity: int, price: real, status: Status,
    partnerSequence: nat)

  /** A row of the outbox: a partner request, or the announcement of a new order to the inventory. */
  datatype Entry = Request(event: Event) | Created(orderId: int)

  const OUTBOX_LIMIT := 2000
  const UNFINISHED_LIMIT := 200

  /** Outbox rows may be deleted; the history keeps every partner request ever written. */
  datatype Source = Source(
    orders: map<int, OrderState>,
    outbox: map<Entry, bool>,
    delivered: set<Event>,
    history: seq<Event>)

  function PendingOrders(s: Source): set<int> {
    set id | id in s.orders && s.orders[id].status == PENDING
  }

  function Requests(s: Source): set<Event> {
    set entry | entry in s.outbox && entry.Request? :: entry.event
  }

  /** What the database counts: pending orders, and requests still in the outbox that are not delivered. */
  function CountUnfinished(s: Source): nat {
    |PendingOrders(s)| + |Requests(s) - s.delivered|
  }

  function AllRequests(s: Source): set<Event> {
    set e | e in s.history
  }

  /** What is really unfinished, whether or not its outbox row is still there. */
  function Unfinished(s: Source): nat {
    |PendingOrders(s)| + |AllRequests(s) - s.delivered|
  }

  /** Requests whose row was deleted before they were delivered. */
  function Forgotten(s: Source): set<Event> {
    AllRequests(s) - Requests(s) - s.delivered
  }

  datatype Step =
    | Create(orderId: int, sellerId: SellerId, runId: int, quantity: int, price: real)
    | StockUpdated(orderId: int, eventId: EventId, now: int)
    | StockFailed(orderId: int)
    | Change(orderId: int, quantity: int, price: real, eventId: EventId, now: int)
    | Cancel(orderId: int, eventId: EventId, now: int)
    | MarkSent(entries: set<Entry>)
    | PurgeSent(entries: set<Entry>)
    | Deliver(event: Event)

  function RequestOf(orderId: int, order: OrderState, operation: Operation, eventId: EventId, now: int): Event {
    Event(eventId, order.runId, order.sellerId, orderId, order.partnerSequence + 1, operation, now, order.quantity,
      order.price)
  }

  /** The order as the transaction left it, with its next partner request in the outbox. */
  function WithRequest(
    s: Source, orderId: int, order: OrderState, operation: Operation, eventId: EventId, now: int): Source
  {
    var e := RequestOf(orderId, order, operation, eventId, now);
    s.(orders := s.orders[orderId := order.(partnerSequence := order.partnerSequence + 1)],
       outbox := s.outbox[Request(e) := false],
       history := s.history + [e])
  }

  predicate OutboxFull(s: Source) {
    |s.outbox| >= OUTBOX_LIMIT
  }

  predicate BusinessFull(s: Source) {
    CountUnfinished(s) >= UNFINISHED_LIMIT
  }

  function AfterCreate(s: Source, orderId: int, sellerId: SellerId, runId: int, quantity: int, price: real): Source {
    if OutboxFull(s) || BusinessFull(s) then s
    else
      s.(orders := s.orders[orderId := OrderState(sellerId, runId, quantity, price, PENDING, 0)],
         outbox := s.outbox[Created(orderId) := false])
  }

  /** The stock was reserved: a pending order is confirmed and its CREATE enqueued, or neither happens. */
  function AfterStockUpdated(s: Source, orderId: int, eventId: EventId, now: int): Source {
    if orderId !in s.orders || s.orders[orderId].status != PENDING || OutboxFull(s) then s
    else WithRequest(s, orderId, s.orders[orderId].(status := CONFIRMED), CREATE, eventId, now)
  }

  function AfterStockFailed(s: Source, orderId: int): Source {
    if orderId !in s.orders || s.orders[orderId].status != PENDING then s
    else s.(orders := s.orders[orderId := s.orders[orderId].(status := CANCELLED)])
  }

  /** A user may change or cancel a confirmed order that the partner knows of, while there is room. */
  predicate MayMutate(s: Source, orderId: int) {
    && orderId in s.orders && s.orders[orderId].partnerSequence != 0 && s.orders[orderId].status == CONFIRMED
    && !OutboxFull(s) && !BusinessFull(s)
  }

  function AfterChange(s: Source, orderId: int, quantity: int, price: real, eventId: EventId, now: int): Source {
    if !MayMutate(s, orderId) then s
    else WithRequest(s, orderId, s.orders[orderId].(quantity := quantity, price := price), CHANGE, eventId, now)
  }

  function AfterCancel(s: Source, orderId: int, eventId: EventId, now: int): Source {
    if !MayMutate(s, orderId) then s
    else WithRequest(s, orderId, s.orders[orderId].(status := CANCELLED), CANCEL, eventId, now)
  }

  /** Event ids are generated afresh for every request. */
  ghost predicate IsFresh(s: Source, eventId: EventId) {
    forall e :: e in s.history ==> e.eventId != eventId
  }

  /** Identifiers are fresh and clocks positive, and a request's quantity and price have been validated. */
  ghost predicate CanStep(s: Source, step: Step) {
    match step
    case Create(orderId, _, _, quantity, price) => orderId !in s.orders && orderId > 0 && quantity > 0 && price >= 0.0
    case StockUpdated(_, eventId, now) => IsFresh(s, eventId) && now > 0
    case StockFailed(_) => true
    case Change(_, quantity, price, eventId, now) => IsFresh(s, eventId) && now > 0 && quantity > 0 && price >= 0.0
    case Cancel(_, eventId, now) => IsFresh(s, eventId) && now > 0
    case MarkSent(entries) => entries <= s.outbox.Keys
    case PurgeSent(entries) => entries <= s.outbox.Keys && forall entry :: entry in entries ==> s.outbox[entry]
    case Deliver(e) => e in s.history
  }

  function Sent(outbox: map<Entry, bool>, entries: set<Entry>): map<Entry, bool> {
    map entry | entry in outbox :: outbox[entry] || entry in entries
  }

  function After(s: Source, step: Step): Source {
    match step
    case Create(orderId, sellerId, runId, quantity, price) => AfterCreate(s, orderId, sellerId, runId, quantity, price)
    case StockUpdated(orderId, eventId, now) => AfterStockUpdated(s, orderId, eventId, now)
    case StockFailed(orderId) => AfterStockFailed(s, orderId)
    case Change(orderId, quantity, price, eventId, now) => AfterChange(s, orderId, quantity, price, eventId, now)
    case Cancel(orderId, eventId, now) => AfterCancel(s, orderId, eventId, now)
    case MarkSent(entries) => s.(outbox := Sent(s.outbox, entries))
    case PurgeSent(entries) => s.(outbox := s.outbox - entries)
    case Deliver(e) => s.(delivered := s.delivered + {e})
  }

  /** Where a run may start: orders from before partner requests existed, none of them numbered yet. */
  ghost predicate IsStart(s: Source) {
    && s.outbox == map[] && s.delivered == {} && s.history == []
    && (forall id :: id in s.orders ==>
          id > 0 && s.orders[id].partnerSequence == 0 && s.orders[id].quantity > 0 && s.orders[id].price >= 0.0)
    && |PendingOrders(s)| <= UNFINISHED_LIMIT
  }

  ghost predicate IsRun(s: Source, run: seq<Step>)
    decreases |run|
  {
    run == [] || (CanStep(s, run[0]) && IsRun(After(s, run[0]), run[1..]))
  }

  function End(s: Source, run: seq<Step>): Source
    decreases |run|
  {
    if run == [] then s else End(After(s, run[0]), run[1..])
  }
}
