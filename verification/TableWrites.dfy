/**
 * What the statements of the inbox repository and the processor write, column by column: a reading of the table
 * functions against which a changed column, a shifted boundary or a swapped outcome does not hold.
 */
module TableWrites {
  import opened Domain
  import opened InboxTables
  import opened PartnerDatabase
  import opened DeliveryProtocol
  import opened InboxStore
  import opened IntakeLemmas
  import opened Processor
  import opened ClaimedRuns

  // ---- intake

  /** The row is that of the event's first record in the poll: pending at once, never tried, never claimed. */
  ghost predicate IsIntroduced(records: seq<Record>, id: EventId, row: Row, receivedAt: int) {
    exists i :: 0 <= i < |records| && records[i].event.eventId == id
      && (forall j :: 0 <= j < i ==> records[j].event.eventId != id)
      && row == Row(records[i].event, records[i].partition, records[i].offset, receivedAt, PENDING, 0, 0, None, 0, 0,
          None)
  }

  lemma {:induction false} FirstRecordIsFirst(records: seq<Record>, id: EventId) returns (i: nat)
    requires exists r :: r in records && r.event.eventId == id
    ensures i < |records| && records[i] == FirstRecord(records, id) && records[i].event.eventId == id
    ensures forall j :: 0 <= j < i ==> records[j].event.eventId != id
  {
    if records[0].event.eventId == id {
      i := 0;
    } else {
      var r :| r in records && r.event.eventId == id;
      assert r in records[1..];
      var n := FirstRecordIsFirst(records[1..], id);
      i := n + 1;
      assert forall j :: 1 <= j < i ==> records[j] == records[1..][j - 1];
    }
  }

  lemma AddedIsIntroduced(inbox: Inbox, effects: Effects, records: seq<Record>, receivedAt: int, id: EventId)
    requires id in NewIds(inbox, effects, records)
    ensures IsIntroduced(records, id, AddedRows(inbox, effects, records, receivedAt)[id], receivedAt)
  {
    hide NewIds, AddedRows, FirstRecord, IsFresh;
    AddedRowIs(inbox, effects, records, receivedAt, id);
    var i := FirstRecordIsFirst(records, id);
  }

  lemma FreshAreNewIds(inbox: Inbox, effects: Effects, records: seq<Record>, unseen: set<EventId>)
    requires forall id :: id in unseen <==>
      id !in inbox && id !in effects && exists i :: 0 <= i < |records| && records[i].event.eventId == id
    ensures unseen == NewIds(inbox, effects, records)
  {
    forall id
      ensures id in unseen <==> id in NewIds(inbox, effects, records)
    {
      NewIdsHaveRecords(inbox, effects, records, id);
      if exists i :: 0 <= i < |records| && records[i].event.eventId == id {
        var i :| 0 <= i < |records| && records[i].event.eventId == id;
        assert records[i] in records;
      }
    }
  }

  lemma OpenArePending(inbox: Inbox, open: set<EventId>)
    requires forall id :: id in open <==> id in inbox && inbox[id].state != DONE
    ensures open == PendingIds(inbox)
  {
    assert forall id :: id in open <==> id in PendingIds(inbox);
  }

  lemma StoredAreIntroduced(
    inbox: Inbox, effects: Effects, records: seq<Record>, pendingLimit: int, retainedLimit: int, receivedAt: int,
    id: EventId)
    requires id in NewIds(inbox, effects, records)
    ensures var after := StoreAll(inbox, effects, records, pendingLimit, retainedLimit, receivedAt);
            after.Some? ==> id in after.value && IsIntroduced(records, id, after.value[id], receivedAt)
  {
    hide NewIds, PendingIds, IsFresh, IsIntroduced;
    AddedIsIntroduced(inbox, effects, records, receivedAt, id);
    hide AddedRows;
    assert id in AddedRows(inbox, effects, records, receivedAt).Keys;
  }

  /**
   * A poll is refused exactly when its events that are neither stored nor delivered are one too many, for the open
   * rows or for all rows. Otherwise each of them gets the row of its first record, and nothing else changes.
   */
  lemma PollIsRefusedExactly(
    inbox: Inbox, effects: Effects, records: seq<Record>, unseen: set<EventId>, open: set<EventId>, pendingLimit: int,
    retainedLimit: int, receivedAt: int)
    requires forall id :: id in unseen <==>
      id !in inbox && id !in effects && exists i :: 0 <= i < |records| && records[i].event.eventId == id
    requires forall id :: id in open <==> id in inbox && inbox[id].state != DONE
    ensures var after := StoreAll(inbox, effects, records, pendingLimit, retainedLimit, receivedAt);
            && (after.None? <==>
                  unseen != {} && (|open| + |unseen| > pendingLimit || |inbox| + |unseen| > retainedLimit))
            && (after.Some? ==>
                  && after.value.Keys == inbox.Keys + unseen
                  && (forall id :: id in inbox ==> after.value[id] == inbox[id])
                  && (forall id :: id in unseen ==> IsIntroduced(records, id, after.value[id], receivedAt)))
  {
    FreshAreNewIds(inbox, effects, records, unseen);
    OpenArePending(inbox, open);
    StoreAllIsExact(inbox, effects, records, pendingLimit, retainedLimit, receivedAt);
    hide NewIds, PendingIds, IsFresh, IsIntroduced, AddedRows;
    var after := StoreAll(inbox, effects, records, pendingLimit, retainedLimit, receivedAt);
    assert after.None? <==> unseen != {} && !HasRoom(inbox, |unseen|, pendingLimit, retainedLimit);
    hide StoreAll;
    forall id | id in unseen && after.Some?
      ensures IsIntroduced(records, id, after.value[id], receivedAt)
    {
      StoredAreIntroduced(inbox, effects, records, pendingLimit, retainedLimit, receivedAt, id);
    }
  }

  // ---- claiming

  /** Every slot from 1 to the count exists; those that did not are free, and all others are as they were. */
  lemma PermitsAreEnsured(permits: Permits, sellerId: SellerId, count: nat, slot: Slot)
    ensures var after := WithPermits(permits, sellerId, count);
            && (slot in after <==> slot in permits || (slot.sellerId == sellerId && 1 <= slot.number <= count))
            && (slot in permits ==> after[slot] == permits[slot])
            && (slot in after && slot !in permits ==> after[slot] == Permit(None, None, 0, 0))
  {
  }

  /** A granted claim: the token, and what its four statements wrote. */
  ghost predicate IsGranted(
    t: Tables, permits: Permits, after: Tables, c: Claim, e: Event, owner: InstanceId, leaseMs: int, at: ClaimClock)
  {
    && e.eventId in t.inbox
    && var row, slot := t.inbox[e.eventId], Slot(e.sellerId, c.slot);
       && c == Claim(e.eventId, e.sellerId, owner, row.generation + 1, c.slot, row.attempts > 0, row.state == CLAIMED)
       && slot in permits && (permits[slot].owner == None || permits[slot].leaseUntil < at.permits)
       && (forall n :: 1 <= n < c.slot && Slot(e.sellerId, n) in permits ==>
             var lower := permits[Slot(e.sellerId, n)]; lower.owner != None && lower.leaseUntil >= at.permits)
       && after.inbox == t.inbox[e.eventId := Row(row.event, row.partition, row.offset, row.receivedAt, CLAIMED,
            row.attempts + 1, row.nextAt, Some(owner), row.generation + 1, at.inbox + leaseMs, row.doneAt)]
       && after.permits
          == permits[slot := Permit(Some(owner), Some(e.eventId), row.generation + 1, at.permit + leaseMs)]
       && after.admissions
          == t.admissions + if row.attempts > 0 then [Admission(e.sellerId, e.eventId, at.admit)] else []
  }

  lemma FreeIsFound(permits: Permits, sellerId: SellerId, count: int, now: int)
    ensures var found := FirstFree(permits, sellerId, 1, count, now);
            found.Some? ==>
              && Slot(sellerId, found.value) in permits && 1 <= found.value <= count
              && (var p := permits[Slot(sellerId, found.value)]; p.owner == None || p.leaseUntil < now)
              && (forall n :: 1 <= n < found.value && Slot(sellerId, n) in permits ==>
                    var lower := permits[Slot(sellerId, n)]; lower.owner != None && lower.leaseUntil >= now)
  {
    var found := FirstFree(permits, sellerId, 1, count, now);
    if found.Some? {
      assert IsFree(permits, Slot(sellerId, found.value), now);
      assert forall n :: 1 <= n < found.value ==> !IsFree(permits, Slot(sellerId, n), now);
    }
  }

  /**
   * Only a granted claim writes, and it writes the whole token into the row and into the lowest free slot, each
   * under a full lease of its own statement, and one admission if the row was tried before. Any other answer leaves
   * nothing but permits that did not exist.
   */
  lemma ClaimWrites(
    t: Tables, e: Event, owner: InstanceId, limits: Limits, at: ClaimClock, appNow: int, cached: bool, locked: bool)
    ensures var (after, attempt) := Claiming(t, e, owner, limits, at, appNow, cached, locked);
            var permits := if cached then t.permits else WithPermits(t.permits, e.sellerId, limits.sellerPermits);
            && attempt.result
               == ClaimEnds(t.inbox, permits, t.admissions, t.orders, e, limits, at, appNow, locked)
            && after.effects == t.effects && after.orders == t.orders
            && (attempt.result == Claimed <==> attempt.claim.Some?)
            && (attempt.claim.None? ==>
                  after.inbox == t.inbox && after.permits == permits && after.admissions == t.admissions)
            && (attempt.claim.Some? ==>
                  IsGranted(t, permits, after, attempt.claim.value, e, owner, limits.leaseMs, at))
  {
    hide FirstFree, ClaimEnds, WithPermits;
    var permits := if cached then t.permits else WithPermits(t.permits, e.sellerId, limits.sellerPermits);
    ClaimedRowExists(t.inbox, permits, t.admissions, t.orders, e, limits, at, appNow, locked);
    FreeIsFound(permits, e.sellerId, limits.sellerPermits, at.permits);
  }

  // ---- writes under a token

  /** The row carries the token, whatever its state. */
  predicate Carries(row: Row, c: Claim) {
    row.owner == Some(c.owner) && row.generation == c.generation
  }

  /** A completion finishes the row that carries the token and no other, and keeps all the rest of it. */
  lemma CompletionWrites(inbox: Inbox, c: Claim, doneAt: int, id: EventId)
    requires id in inbox
    ensures var after, row := Completed(inbox, c, doneAt), inbox[id];
            && after.Keys == inbox.Keys
            && after[id] ==
                 if id == c.eventId && Carries(row, c) then
                   Row(row.event, row.partition, row.offset, row.receivedAt, DONE, row.attempts, row.nextAt, None,
                       row.generation, 0, Some(doneAt))
                 else row
  {
  }

  /** A give back makes the row wait that carries the token under way and in its lease, and no other. */
  lemma GiveBackWrites(inbox: Inbox, c: Claim, now: int, nextAt: int, id: EventId)
    requires id in inbox
    ensures var after, row := GivenBack(inbox, c, now, nextAt), inbox[id];
            && after.Keys == inbox.Keys
            && after[id] ==
                 if id == c.eventId && Carries(row, c) && row.state == CLAIMED && now <= row.leaseUntil then
                   Row(row.event, row.partition, row.offset, row.receivedAt, PENDING, row.attempts, nextAt, None,
                       row.generation, 0, row.doneAt)
                 else row
  {
  }

  /** A release empties the slot that carries all of the token, and no other; the slot keeps its generation. */
  lemma ReleaseWrites(permits: Permits, c: Claim, slot: Slot)
    requires slot in permits
    ensures var after, permit := Released(permits, c), permits[slot];
            && after.Keys == permits.Keys
            && after[slot] ==
                 if slot == Slot(c.sellerId, c.slot) && permit.owner == Some(c.owner)
                    && permit.eventId == Some(c.eventId) && permit.generation == c.generation then
                   Permit(None, None, c.generation, 0)
                 else permit
  {
  }

  // ---- one delivery

  /** The event may follow what the order table holds of its order. */
  predicate IsNext(orders: Orders, e: Event) {
    var key := OrderKey(e.sellerId, e.orderId);
    e.sequence == (if key in orders then orders[key].sequence else 0) + 1
  }

  predicate InPlaceOf(e: Event, other: Event) {
    e.sellerId == other.sellerId && e.orderId == other.orderId && e.sequence == other.sequence
  }

  /** The ledger has another operation of the event's order in the event's place. */
  predicate IsTaken(effects: Effects, e: Event) {
    exists id :: id in effects && InPlaceOf(e, effects[id])
  }

  lemma CollisionIs(effects: Effects, e: Event)
    ensures Collides(effects, e) <==> e.eventId in effects || IsTaken(effects, e)
  {
    if Collides(effects, e) && e.eventId !in effects {
      var id :| id in effects && effects[id].Key() == e.Key() && effects[id].sequence == e.sequence;
      assert InPlaceOf(e, effects[id]);
    }
    if IsTaken(effects, e) {
      var id :| id in effects && InPlaceOf(e, effects[id]);
      assert effects[id].Key() == e.Key() && effects[id].sequence == e.sequence;
    }
  }

  lemma NextIs(orders: Orders, e: Event)
    ensures LastSequence(orders, e.Key()) + 1 == e.sequence <==> IsNext(orders, e)
  {
  }

  /** The token's claim is under way and in its lease; without a claim there is none to lose. */
  predicate MayRecord(inbox: Inbox, claim: Option<Claim>, now: int) {
    claim.Some? ==>
      && claim.value.eventId in inbox && inbox[claim.value.eventId].state == CLAIMED
      && Carries(inbox[claim.value.eventId], claim.value) && now <= inbox[claim.value.eventId].leaseUntil
  }

  lemma HoldingMayRecord(inbox: Inbox, claim: Option<Claim>, now: int)
    ensures StillHolds(inbox, claim, now) <==> MayRecord(inbox, claim, now)
  {
  }

  /** Which way the recording ends, each outcome exactly. */
  lemma RecordingTells(t: Tables, e: Event, claim: Option<Claim>, now: int, doneAt: int)
    ensures var (after, outcome) := Recording(t, e, claim, now, doneAt);
            var may, taken := MayRecord(t.inbox, claim, now), IsTaken(t.effects, e);
            && (outcome == Stale <==> !may)
            && (outcome == AlreadyDelivered <==> may && e.eventId in t.effects)
            && (outcome == PredecessorChanged <==> may && e.eventId !in t.effects && !IsNext(t.orders, e))
            && (outcome == AlreadyTaken <==> may && e.eventId !in t.effects && IsNext(t.orders, e) && taken)
            && (outcome == Delivered <==> may && e.eventId !in t.effects && IsNext(t.orders, e) && !taken)
  {
    CollisionIs(t.effects, e);
    NextIs(t.orders, e);
    HoldingMayRecord(t.inbox, claim, now);
    hide Collides, IsTaken, IsNext, LastSequence, MayRecord, StillHolds, CompletedBy, ReleasedBy;
  }

  /** What it leaves: nothing, a completed claim, or the delivery with it. */
  lemma RecordingWrites(t: Tables, e: Event, claim: Option<Claim>, now: int, doneAt: int)
    ensures var (after, outcome) := Recording(t, e, claim, now, doneAt);
            && after.admissions == t.admissions
            && (!IsDone(outcome) ==> after == t)
            && (IsDone(outcome) ==>
                  && after.inbox == (if claim.Some? then Completed(t.inbox, claim.value, doneAt) else t.inbox)
                  && after.permits == if claim.Some? then Released(t.permits, claim.value) else t.permits)
            && (outcome != Delivered ==> after.effects == t.effects && after.orders == t.orders)
            && (outcome == Delivered ==>
                  && after.effects == t.effects[e.eventId := e]
                  && after.orders == t.orders[OrderKey(e.sellerId, e.orderId) :=
                       OrderRow(e.sequence, e.operation, e.quantity, e.price)])
  {
    hide StillHolds, Collides, Completed, Released;
  }

  /** Before the call: who is sent to the seller, and how the others end. After it: the recording, if accepted. */
  lemma ProcessingTells(
    before: Tables, between: Tables, e: Event, claim: Option<Claim>, accepted: bool, at: Times)
    ensures var (after, outcome) := Processing(before, between, e, claim, accepted, at);
            && (Calls(before, e) <==> e.eventId !in before.effects && IsNext(before.orders, e))
            && (e.eventId in before.effects ==>
                  && outcome == AlreadyDelivered
                  && after.effects == before.effects && after.orders == before.orders
                  && after.admissions == before.admissions
                  && after.inbox == (if claim.Some? && MayRecord(before.inbox, claim, at.check)
                                     then Completed(before.inbox, claim.value, at.doneAt) else before.inbox)
                  && after.permits == if claim.Some? then Released(before.permits, claim.value) else before.permits)
            && (e.eventId !in before.effects && !IsNext(before.orders, e) ==>
                  outcome == PredecessorPending && after == before)
            && (Calls(before, e) && !accepted ==> outcome == CallFailed && after == between)
            && (Calls(before, e) && accepted ==>
                  (after, outcome) == Recording(between, e, claim, at.record, at.doneAt))
  {
    NextIs(before.orders, e);
    HoldingMayRecord(before.inbox, claim, at.check);
    hide Completed, Released, Recording, IsNext, LastSequence, MayRecord, StillHolds;
  }

  /**
   * What the dispatcher leaves of a claimed event: a deferral, a failed call and a recording that failed over the
   * ledger give row and permit back, unless that fails too; everything else stays as the processing left it.
   */
  lemma RunEnds(
    before: Tables, between: Tables, e: Event, c: Claim, accepted: bool, at: Times, now: int, nextAt: int, keeps: bool)
    ensures var after := RunTables(before, between, e, c, accepted, at, now, nextAt, keeps);
            var (t, outcome) := Processing(before, between, e, Some(c), accepted, at);
            var failed := outcome in {PredecessorPending, CallFailed, PredecessorChanged, AlreadyTaken};
            && after.admissions == t.admissions && after.effects == t.effects && after.orders == t.orders
            && after.inbox == (if failed && !keeps then GivenBack(t.inbox, c, now, nextAt) else t.inbox)
            && after.permits == if failed && !keeps then Released(t.permits, c) else t.permits
  {
    hide Processing, GivenBack, Released;
  }
}
