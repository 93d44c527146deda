/**
 * What every reachable state of the delivery protocol satisfies, one predicate per concern, each
 * over the tables it speaks about.
 */
module DeliveryInvariant {
  import opened Domain
  import opened InboxTables
  import opened SellerApi
  import opened DeliveryProtocol

  // ---- ledgers: the internal one and the seller's have the same shape

  ghost predicate Delivered(effects: Effects, key: OrderKey, n: int) {
    exists id :: id in effects && effects[id].Key() == key && effects[id].sequence == n
  }

  /** The sequences a ledger holds of an order are exactly 1..last, and the order row is the last one's. */
  ghost predicate LedgerOk(catalogue: map<EventId, Event>, effects: Effects, orders: Orders) {
    && (forall id :: id in effects ==> id in catalogue && effects[id] == catalogue[id])
    && (forall id :: id in effects ==>
          effects[id].Key() in orders && effects[id].sequence <= orders[effects[id].Key()].sequence)
    && (forall id :: id in effects && effects[id].sequence == LastSequence(orders, effects[id].Key()) ==>
          effects[id].Key() in orders && orders[effects[id].Key()] == effects[id].Latest())
    && (forall key :: key in orders ==> orders[key].sequence >= 1)
    && (forall key, n :: 1 <= n <= LastSequence(orders, key) ==> Delivered(effects, key, n))
  }

  // ---- the inbox against the ledger

  ghost predicate RowOk(catalogue: map<EventId, Event>, effects: Effects, orders: Orders, id: EventId, row: Row) {
    && id in catalogue && row.event == catalogue[id]
    && (row.state == DONE <==> id in effects)
    && (row.state == DONE ==> row.doneAt.Some?)
    && (row.state == CLAIMED <==> row.owner.Some?)
    && (row.state == CLAIMED ==> row.event.sequence == LastSequence(orders, row.event.Key()) + 1)
  }

  ghost predicate InboxOk(catalogue: map<EventId, Event>, inbox: Inbox, effects: Effects, orders: Orders) {
    forall id :: id in inbox ==> RowOk(catalogue, effects, orders, id, inbox[id])
  }

  // ---- tokens

  ghost predicate TokenOk(catalogue: map<EventId, Event>, inbox: Inbox, effects: Effects, c: Claim) {
    && c.eventId in catalogue && c.sellerId == catalogue[c.eventId].sellerId
    && (c.eventId in inbox ==> 1 <= c.generation <= inbox[c.eventId].generation)
    && (c.eventId !in inbox ==> c.eventId in effects)
  }

  ghost predicate DistinctTokens(issued: set<Claim>) {
    forall c, d :: c in issued && d in issued && c.eventId == d.eventId && c.generation == d.generation ==> c == d
  }

  /** An event and a generation name at most one token, and a claimed row was claimed by an issued one. */
  ghost predicate TokensOk(catalogue: map<EventId, Event>, inbox: Inbox, effects: Effects, issued: set<Claim>) {
    && (forall c :: c in issued ==> TokenOk(catalogue, inbox, effects, c))
    && DistinctTokens(issued)
    && (forall id :: id in inbox && inbox[id].state == CLAIMED ==>
          exists c :: c in issued && c.eventId == id && Names(inbox, c))
  }

  /** The claim's slot carries its token, under a lease at least as long as the row's. */
  ghost predicate Covered(inbox: Inbox, permits: Permits, c: Claim)
    requires c.eventId in inbox
  {
    HoldsPermit(permits, c) && permits[Slot(c.sellerId, c.slot)].leaseUntil >= inbox[c.eventId].leaseUntil
  }

  ghost predicate PermitsOk(inbox: Inbox, permits: Permits, issued: set<Claim>, sellerPermits: nat, clock: int) {
    && (forall slot :: slot in permits ==> 1 <= slot.number <= sellerPermits)
    && (forall c :: c in issued && Holds(inbox, c, clock) ==> Covered(inbox, permits, c))
  }

  // ---- workers

  ghost predicate WorkersOk(
    catalogue: map<EventId, Event>, inboxMode: bool, issued: set<Claim>, effects: Effects,
    workers: map<nat, Worker>)
  {
    && (forall w :: w in workers && workers[w].phase.Duplicate? ==> workers[w].event.eventId in effects)
    && (forall w :: w in workers ==> Known(catalogue, workers[w].event) && (workers[w].claim.Some? <==> inboxMode))
    && (forall w :: w in workers && workers[w].claim.Some? ==>
          workers[w].claim.value in issued && workers[w].claim.value.eventId == workers[w].event.eventId)
  }

  predicate SameLock(v: Worker, w: Worker) {
    v.Locks() && w.Locks() && v.event.eventId == w.event.eventId
  }

  /** A worker with an open recording transaction owns its row, and no two transactions lock one row. */
  ghost predicate LocksOk(inbox: Inbox, workers: map<nat, Worker>) {
    && (forall w :: w in workers && workers[w].Locks() ==>
          Names(inbox, workers[w].claim.value) && inbox[workers[w].claim.value.eventId].state == CLAIMED)
    && (forall v, w :: v in workers && w in workers && SameLock(workers[v], workers[w]) ==> v == w)
  }

  /** Past the predecessor check: the event is at most the next one of its order, for ever after. */
  predicate Cleared(phase: Phase) {
    phase.Checked? || phase.Calling? || phase.Succeeded? || phase.Locked? || phase.Writing?
  }

  /** The seller has accepted the event. */
  predicate Accepted(phase: Phase) {
    phase.Succeeded? || phase.Locked? || phase.Writing?
  }

  ghost predicate OrderOk(orders: Orders, workers: map<nat, Worker>, requests: map<nat, Request>) {
    && (forall w :: w in workers && Cleared(workers[w].phase) ==>
          workers[w].event.sequence <= LastSequence(orders, workers[w].event.Key()) + 1)
    && (forall r :: r in requests ==> requests[r].event.sequence <= LastSequence(orders, requests[r].event.Key()) + 1)
  }

  // ---- calls and the seller

  ghost predicate CallsOk(
    catalogue: map<EventId, Event>, workers: map<nat, Worker>, requests: map<nat, Request>, seller: Seller)
  {
    && (forall r :: r in requests ==> Known(catalogue, requests[r].event))
    && (forall r :: r in requests && requests[r].stage.Answered? && requests[r].stage.status == OK ==>
          requests[r].event.eventId in seller.effects)
    && (forall r :: r in requests && requests[r].stage.Counted? ==> requests[r].stage.attempt < |seller.attempts|)
    && (forall w :: w in workers && workers[w].phase.Calling? ==>
          workers[w].phase.request in requests && requests[workers[w].phase.request].event == workers[w].event)
    && (forall w :: w in workers && Accepted(workers[w].phase) ==> workers[w].event.eventId in seller.effects)
  }

  /** The log holds each effect, and each once. */
  ghost predicate ListsOnce(log: seq<Event>, effects: Effects) {
    && (forall i :: 0 <= i < |log| ==> log[i].eventId in effects && effects[log[i].eventId] == log[i])
    && (forall id :: id in effects ==> effects[id] in log)
    && (forall i, j :: 0 <= i < j < |log| ==> log[i].eventId != log[j].eventId)
  }

  /** Of each order the log holds 1, 2, ... up to the last one applied. */
  ghost predicate ListsInOrder(log: seq<Event>, orders: Orders) {
    forall key :: SequencesOf(log, key) == UpTo(LastSequence(orders, key))
  }

  /** The seller applied each event at most once and the operations of every order in sequence. */
  ghost predicate SellerOk(catalogue: map<EventId, Event>, seller: Seller) {
    && LedgerOk(catalogue, seller.effects, seller.orders)
    && ListsOnce(seller.log, seller.effects)
    && ListsInOrder(seller.log, seller.orders)
  }

  /** The seller is at most one operation ahead of the internal ledger. */
  ghost predicate GapOk(orders: Orders, sellerOrders: Orders) {
    forall key :: LastSequence(orders, key) <= LastSequence(sellerOrders, key) <= LastSequence(orders, key) + 1
  }

  // ---- intake

  predicate Stored(inbox: Inbox, effects: Effects, id: EventId) {
    id in inbox || id in effects
  }

  ghost predicate StoredUpTo(cfg: Config, inbox: Inbox, effects: Effects, p: int, n: nat) {
    p in cfg.topic && n <= |cfg.topic[p]| && forall o :: 0 <= o < n ==> Stored(inbox, effects, cfg.topic[p][o].eventId)
  }

  /** Every offset that is committed, about to be committed or passed by a consumer is stored or delivered. */
  ghost predicate OffsetsOk(
    cfg: Config, inbox: Inbox, effects: Effects, committed: map<int, nat>, positions: map<Cursor, nat>,
    acks: set<Ack>)
  {
    && (forall p :: p in committed ==> StoredUpTo(cfg, inbox, effects, p, committed[p]))
    && (forall k :: k in positions ==> StoredUpTo(cfg, inbox, effects, k.partition, positions[k]))
    && (forall a, p :: a in acks && p in a.upto ==> StoredUpTo(cfg, inbox, effects, p, a.upto[p]))
  }

  ghost predicate CapacityOk(inbox: Inbox, pendingLimit: nat, retainedLimit: nat) {
    |PendingIds(inbox)| <= pendingLimit && |inbox| <= retainedLimit
  }

  // ---- the shared retry budget

  /** Admissions of a seller within (from, to]. */
  function CountWithin(history: seq<Admission>, sellerId: SellerId, from: int, to: int): nat {
    if history == [] then 0
    else
      var last := history[|history| - 1];
      CountWithin(history[..|history| - 1], sellerId, from, to)
      + if last.sellerId == sellerId && from < last.admittedAt <= to then 1 else 0
  }

  /** The table still holds every admission that any later window can reach, and no window was overspent. */
  ghost predicate BudgetOk(admissions: seq<Admission>, history: seq<Admission>, limits: Limits, clock: int) {
    && (forall i :: 0 <= i < |history| ==> history[i].admittedAt <= clock)
    && (forall sellerId, since :: since >= clock - 10 * limits.retryWindowMs ==>
          CountSince(admissions, sellerId, since) == CountSince(history, sellerId, since))
    && (forall sellerId, from, to :: to <= from + limits.retryWindowMs ==>
          CountWithin(history, sellerId, from, to) <= Max(limits.retryBudget, 0))
  }

  ghost predicate Inv(cfg: Config, s: World) {
    && cfg.Valid()
    && LedgerOk(cfg.catalogue, s.effects, s.orders)
    && InboxOk(cfg.catalogue, s.inbox, s.effects, s.orders)
    && TokensOk(cfg.catalogue, s.inbox, s.effects, s.issued)
    && WorkersOk(cfg.catalogue, cfg.inboxMode, s.issued, s.effects, s.workers)
    && LocksOk(s.inbox, s.workers)
    && OrderOk(s.orders, s.workers, s.requests)
    && CallsOk(cfg.catalogue, s.workers, s.requests, s.seller)
    && SellerOk(cfg.catalogue, s.seller)
    && GapOk(s.orders, s.seller.orders)
    && OffsetsOk(cfg, s.inbox, s.effects, s.committed, s.positions, s.acks)
    && CapacityOk(s.inbox, cfg.pendingLimit, cfg.retainedLimit)
    && BudgetOk(s.admissions, s.history, cfg.limits, s.clock)
    && (!cfg.inboxMode ==> s.inbox == map[])
  }
}
