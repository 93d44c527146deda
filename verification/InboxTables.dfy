/**
 * The inbox tables as values, and each statement or transaction of the inbox repository as a
 * function from the tables before to the tables after. Times are the database clock; a transaction
 * whose statements read the clock several times takes all the readings.
 */
module InboxTables {
  import opened Domain

  datatype RowState = PENDING | CLAIMED | DONE

  datatype Row = Row(
    event: Event,
    partition: int,
    offset: nat,
    receivedAt: int,
    state: RowState,
    attempts: nat,
    nextAt: int,
    owner: Option<InstanceId>,
    generation: nat,
    leaseUntil: int,
    doneAt: Option<int>)

  /** A Kafka record as the listener hands it to the inbox. */
  datatype Record = Record(event: Event, partition: int, offset: nat)

  /** One of the places a seller has for running calls, numbered from 1. */
  datatype Slot = Slot(sellerId: SellerId, number: int)
  datatype Permit = Permit(owner: Option<InstanceId>, eventId: Option<EventId>, generation: nat, leaseUntil: int)
  const FREE := Permit(None, None, 0, 0)

  /** What a successful claim hands out; TokensOk says how far it still counts for anything. */
  datatype Claim = Claim(
    eventId: EventId, sellerId: SellerId, owner: InstanceId, generation: nat, slot: int, retry: bool, reclaimed: bool)

  datatype Admission = Admission(sellerId: SellerId, eventId: EventId, admittedAt: int)

  type Inbox = map<EventId, Row>
  type Permits = map<Slot, Permit>
  type Effects = map<EventId, Event>
  type Orders = map<OrderKey, OrderRow>

  // ---- intake

  function PendingIds(inbox: Inbox): set<EventId> {
    set id | id in inbox && inbox[id].state != DONE
  }

  /** The distinct events of a poll that are neither stored nor delivered. */
  function NewIds(inbox: Inbox, effects: Effects, records: seq<Record>): set<EventId> {
    set r | r in records && r.event.eventId !in inbox && r.event.eventId !in effects :: r.event.eventId
  }

  /** The record that introduces an event in a poll: its first occurrence. */
  function FirstRecord(records: seq<Record>, id: EventId): (r: Record)
    requires exists r :: r in records && r.event.eventId == id
    ensures r in records && r.event.eventId == id
  {
    if records[0].event.eventId == id then records[0] else FirstRecord(records[1..], id)
  }

  function NewRow(r: Record, receivedAt: int): Row {
    Row(r.event, r.partition, r.offset, receivedAt, PENDING, 0, 0, None, 0, 0, None)
  }

  /** The row is one of the poll's records of that event, never claimed. */
  ghost predicate IsFresh(records: seq<Record>, id: EventId, row: Row, receivedAt: int) {
    exists r :: r in records && r.event.eventId == id && row == NewRow(r, receivedAt)
  }

  /** The rows a poll adds: one per new event, from the record that introduces it. */
  function AddedRows(inbox: Inbox, effects: Effects, records: seq<Record>, receivedAt: int): (added: Inbox)
    ensures added.Keys == NewIds(inbox, effects, records)
    ensures forall id :: id in added ==> IsFresh(records, id, added[id], receivedAt)
  {
    map id | id in NewIds(inbox, effects, records) :: NewRow(FirstRecord(records, id), receivedAt)
  }

  predicate HasRoom(inbox: Inbox, added: nat, pendingLimit: int, retainedLimit: int) {
    |PendingIds(inbox)| + added <= pendingLimit && |inbox| + added <= retainedLimit
  }

  /** The inbox after one poll's transaction; None when the capacity check refuses the whole poll. */
  function StoreAll(
    inbox: Inbox, effects: Effects, records: seq<Record>, pendingLimit: int, retainedLimit: int, receivedAt: int)
    : Option<Inbox>
  {
    var ids := NewIds(inbox, effects, records);
    if ids == {} then Some(inbox)
    else if !HasRoom(inbox, |ids|, pendingLimit, retainedLimit) then None
    else Some(inbox + AddedRows(inbox, effects, records, receivedAt))
  }

  // ---- claiming

  /** Readings of the database clock by the statements of one claim, in statement order. */
  datatype ClaimClock = ClaimClock(permits: int, row: int, count: int, admit: int, inbox: int, permit: int) {
    predicate Ordered() {
      permits <= row <= count <= admit <= inbox <= permit
    }
  }

  datatype ClaimResult = Claimed | SellerFull | Taken | RetryBudget

  function WithPermits(permits: Permits, sellerId: SellerId, count: nat): Permits {
    (map n: int | 1 <= n <= count && Slot(sellerId, n) !in permits :: Slot(sellerId, n) := FREE) + permits
  }

  predicate IsFree(permits: Permits, slot: Slot, now: int) {
    slot in permits && (permits[slot].owner == None || permits[slot].leaseUntil < now)
  }

  /** The lowest free slot number at or above n; none when all of n..count are held. */
  function FirstFree(permits: Permits, sellerId: SellerId, n: int, count: int, now: int): (slot: Option<int>)
    ensures slot.Some? ==> n <= slot.value <= count && IsFree(permits, Slot(sellerId, slot.value), now)
    ensures slot.Some? ==> forall m :: n <= m < slot.value ==> !IsFree(permits, Slot(sellerId, m), now)
    ensures slot.None? ==> forall m :: n <= m <= count ==> !IsFree(permits, Slot(sellerId, m), now)
    decreases count - n
  {
    if n > count then None
    else if IsFree(permits, Slot(sellerId, n), now) then Some(n)
    else FirstFree(permits, sellerId, n + 1, count, now)
  }

  /** A claim may take the row: nothing is missing before it, and nobody waits with it or works on it. */
  predicate IsReady(inbox: Inbox, orders: Orders, id: EventId, appNow: int, now: int) {
    && id in inbox
    && (|| (inbox[id].state == PENDING && inbox[id].nextAt <= appNow)
        || (inbox[id].state == CLAIMED && inbox[id].leaseUntil < now))
    && inbox[id].event.sequence == LastSequence(orders, inbox[id].event.Key()) + 1
  }

  /** Admissions of a seller after an instant, that instant excluded. */
  function CountSince(admissions: seq<Admission>, sellerId: SellerId, since: int): nat {
    if admissions == [] then 0
    else
      var last := admissions[|admissions| - 1];
      CountSince(admissions[..|admissions| - 1], sellerId, since)
      + if last.sellerId == sellerId && last.admittedAt > since then 1 else 0
  }

  datatype Limits = Limits(sellerPermits: nat, retryBudget: int, retryWindowMs: nat, leaseMs: int)

  /**
   * How a claim ends, with all the seller's permits in the table. A row that another transaction has
   * locked looks like one somebody else took.
   */
  function ClaimEnds(
    inbox: Inbox, permits: Permits, admissions: seq<Admission>, orders: Orders, e: Event, limits: Limits,
    at: ClaimClock, appNow: int, locked: bool): ClaimResult
  {
    if FirstFree(permits, e.sellerId, 1, limits.sellerPermits, at.permits) == None then SellerFull
    else if locked || !IsReady(inbox, orders, e.eventId, appNow, at.row) then Taken
    else if inbox[e.eventId].attempts > 0
         && CountSince(admissions, e.sellerId, at.count - limits.retryWindowMs) >= limits.retryBudget then RetryBudget
    else Claimed
  }

  /** A granted claim has a row to take - open, not locked, the next of its order - a free slot and budget left. */
  lemma ClaimedRowExists(
    inbox: Inbox, permits: Permits, admissions: seq<Admission>, orders: Orders, e: Event, limits: Limits,
    at: ClaimClock, appNow: int, locked: bool)
    ensures ClaimEnds(inbox, permits, admissions, orders, e, limits, at, appNow, locked) == Claimed ==>
          && !locked && e.eventId in inbox && inbox[e.eventId].state != DONE
          && FirstFree(permits, e.sellerId, 1, limits.sellerPermits, at.permits).Some?
          && inbox[e.eventId].event.sequence == LastSequence(orders, inbox[e.eventId].event.Key()) + 1
          && (inbox[e.eventId].attempts > 0 ==>
                CountSince(admissions, e.sellerId, at.count - limits.retryWindowMs) < limits.retryBudget)
  {
    hide FirstFree, CountSince, LastSequence;
  }

  function ClaimToken(
    inbox: Inbox, permits: Permits, e: Event, owner: InstanceId, limits: Limits, at: ClaimClock): Claim
    requires e.eventId in inbox && FirstFree(permits, e.sellerId, 1, limits.sellerPermits, at.permits).Some?
  {
    var row := inbox[e.eventId];
    Claim(e.eventId, e.sellerId, owner, row.generation + 1,
          FirstFree(permits, e.sellerId, 1, limits.sellerPermits, at.permits).value, row.attempts > 0, row.state
            == CLAIMED)
  }

  function ClaimedRow(row: Row, c: Claim, leaseUntil: int): Row {
    row.(state := CLAIMED, owner := Some(c.owner), generation := c.generation, attempts := row.attempts + 1,
      leaseUntil := leaseUntil)
  }

  function HeldPermit(c: Claim, leaseUntil: int): Permit {
    Permit(Some(c.owner), Some(c.eventId), c.generation, leaseUntil)
  }

  // ---- writes under a token

  /** The token names the current claim of the row, whatever its lease. */
  predicate Names(inbox: Inbox, c: Claim) {
    c.eventId in inbox && inbox[c.eventId].owner == Some(c.owner) && inbox[c.eventId].generation == c.generation
  }

  /** The token names a claim under way whose lease reaches the reading. */
  predicate Holds(inbox: Inbox, c: Claim, now: int) {
    Names(inbox, c) && inbox[c.eventId].state == CLAIMED && inbox[c.eventId].leaseUntil >= now
  }

  predicate HoldsPermit(permits: Permits, c: Claim) {
    var slot := Slot(c.sellerId, c.slot);
    slot in permits && permits[slot].owner == Some(c.owner) && permits[slot].eventId == Some(c.eventId)
    && permits[slot].generation == c.generation
  }

  function Completed(inbox: Inbox, c: Claim, doneAt: int): Inbox {
    if Names(inbox, c) then
      inbox[c.eventId := inbox[c.eventId].(state := DONE, doneAt := Some(doneAt), owner := None, leaseUntil := 0)]
    else inbox
  }

  function GivenBack(inbox: Inbox, c: Claim, now: int, nextAt: int): Inbox {
    if Holds(inbox, c, now) then
      inbox[c.eventId := inbox[c.eventId].(state := PENDING, owner := None, leaseUntil := 0, nextAt := nextAt)]
    else inbox
  }

  function Released(permits: Permits, c: Claim): Permits {
    var slot := Slot(c.sellerId, c.slot);
    if HoldsPermit(permits, c) then permits[slot := permits[slot].(owner := None, eventId := None, leaseUntil := 0)]
    else permits
  }

  function RenewedInbox(inbox: Inbox, c: Claim, now: int, leaseMs: int): Inbox {
    if Holds(inbox, c, now) then inbox[c.eventId := inbox[c.eventId].(leaseUntil := now + leaseMs)] else inbox
  }

  /** The permit follows only when the row could be extended. */
  function RenewedPermits(inbox: Inbox, permits: Permits, c: Claim, now: int, later: int, leaseMs: int): Permits {
    var slot := Slot(c.sellerId, c.slot);
    if Holds(inbox, c, now) && HoldsPermit(permits, c)
      then permits[slot := permits[slot].(leaseUntil := later + leaseMs)] else permits
  }

  // ---- the ledger

  /** Inserting the event would repeat one of the ledger's two unique keys. */
  predicate Collides(effects: Effects, e: Event) {
    e.eventId in effects
      || exists id :: id in effects && effects[id].Key() == e.Key() && effects[id].sequence == e.sequence
  }

  // ---- purging

  predicate MayPurge(inbox: Inbox, ids: set<EventId>, cutoff: int) {
    forall id :: id in ids ==>
      id in inbox && inbox[id].state == DONE && inbox[id].doneAt.Some? && inbox[id].doneAt.value < cutoff
  }

  /** The admissions left after deleting the rows at the given positions. */
  function Without(admissions: seq<Admission>, gone: set<nat>): seq<Admission> {
    if admissions == [] then []
    else
      var n := |admissions| - 1;
      Without(admissions[..n], gone) + if n in gone then [] else [admissions[n]]
  }
}
