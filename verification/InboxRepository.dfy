/**
 * The inbox repository: each method against the function of the tables it computes, and each of
 * those against the step of the delivery protocol that it is.
 */
module InboxStore {
  import opened Domain
  import opened InboxTables
  import opened PartnerDatabase
  import opened DeliveryProtocol

  datatype StoreResult = Inserted(count: nat) | InboxFull

  datatype ClaimAttempt = ClaimAttempt(result: ClaimResult, claim: Option<Claim>)

  /** Readings of the database clock by the two statements that extend one claim. */
  datatype RenewClock = RenewClock(row: int, permit: int)

  // ---- intake

  function ById(rows: seq<Row>): Inbox {
    if rows == [] then map[] else ById(rows[..|rows| - 1])[rows[|rows| - 1].event.eventId := rows[|rows| - 1]]
  }

  lemma {:induction false} FirstRecordExtends(records: seq<Record>, r: Record, id: EventId)
    requires r.event.eventId == id || exists x :: x in records && x.event.eventId == id
    ensures FirstRecord(records + [r], id) ==
      if (exists x :: x in records && x.event.eventId == id) then FirstRecord(records, id) else r
  {
    if records != [] {
      assert (records + [r])[1..] == records[1..] + [r];
      if records[0].event.eventId != id {
        assert (exists x :: x in records && x.event.eventId == id)
        <==> (exists x :: x in records[1..] && x.event.eventId == id);
        FirstRecordExtends(records[1..], r, id);
      }
    }
  }

  predicate IsNew(inbox: Inbox, effects: Effects, records: seq<Record>, id: EventId) {
    id !in inbox && id !in effects && id !in NewIds(inbox, effects, records)
  }

  lemma NewIdsExtend(inbox: Inbox, effects: Effects, records: seq<Record>, r: Record)
    ensures var id, ids := r.event.eventId, NewIds(inbox, effects, records);
            NewIds(inbox, effects, records + [r]) == if IsNew(inbox, effects, records, id) then ids + {id} else ids
  {
    assert forall x :: x in records + [r] <==> x in records || x == r;
    var id, ids, more := r.event.eventId, NewIds(inbox, effects, records), NewIds(inbox, effects, records + [r]);
    assert forall i :: i in more ==> i in ids || (i == id && IsNew(inbox, effects, records, id));
    assert IsNew(inbox, effects, records, id) ==> id in more;
  }

  lemma NewIdsHaveRecords(inbox: Inbox, effects: Effects, records: seq<Record>, id: EventId)
    ensures id in NewIds(inbox, effects, records)
          <==> id !in inbox && id !in effects && exists x :: x in records && x.event.eventId == id
  {
  }

  lemma AddedRowIs(inbox: Inbox, effects: Effects, records: seq<Record>, receivedAt: int, id: EventId)
    requires id in NewIds(inbox, effects, records)
    ensures exists x :: x in records && x.event.eventId == id
    ensures AddedRows(inbox, effects, records, receivedAt)[id] == NewRow(FirstRecord(records, id), receivedAt)
  {
    NewIdsHaveRecords(inbox, effects, records, id);
  }

  lemma AddedRowStays(inbox: Inbox, effects: Effects, records: seq<Record>, r: Record, receivedAt: int, i: EventId)
    requires i in NewIds(inbox, effects, records + [r])
    ensures AddedRows(inbox, effects, records + [r], receivedAt)[i] ==
      if i in NewIds(inbox, effects, records) then AddedRows(inbox, effects, records, receivedAt)[i]
      else NewRow(r, receivedAt)
  {
    hide NewIds, AddedRows, NewRow, FirstRecord;
    NewIdsHaveRecords(inbox, effects, records, i);
    NewIdsHaveRecords(inbox, effects, records + [r], i);
    AddedRowIs(inbox, effects, records + [r], receivedAt, i);
    if i in NewIds(inbox, effects, records) {
      AddedRowIs(inbox, effects, records, receivedAt, i);
    }
    FirstRecordExtends(records, r, i);
  }

  /** One more record adds a row exactly when its event is new and not repeated inside the poll. */
  lemma AddedRowsExtend(inbox: Inbox, effects: Effects, records: seq<Record>, r: Record, receivedAt: int)
    ensures var id, before := r.event.eventId, AddedRows(inbox, effects, records, receivedAt);
            AddedRows(inbox, effects, records + [r], receivedAt) ==
              if IsNew(inbox, effects, records, id) then before[id := NewRow(r, receivedAt)] else before
  {
    hide NewIds, AddedRows, NewRow;
    var before, after :=
      AddedRows(inbox, effects, records, receivedAt), AddedRows(inbox, effects, records + [r], receivedAt);
    NewIdsExtend(inbox, effects, records, r);
    forall i | i in after.Keys
      ensures after[i] == if i in before.Keys then before[i] else NewRow(r, receivedAt)
    {
      AddedRowStays(inbox, effects, records, r, receivedAt, i);
    }
    assert after.Keys == NewIds(inbox, effects, records + [r]) && before.Keys == NewIds(inbox, effects, records);
  }

  lemma NothingIsNew(inbox: Inbox, effects: Effects, receivedAt: int)
    ensures NewIds(inbox, effects, []) == {} && AddedRows(inbox, effects, [], receivedAt) == map[]
  {
  }

  /** A completed row whose completion lies before the cutoff. */
  predicate IsOld(inbox: Inbox, id: EventId, cutoff: int) {
    id in inbox && inbox[id].state == DONE && inbox[id].doneAt.Some? && inbox[id].doneAt.value < cutoff
  }

  lemma OneFewer(inbox: Inbox, gone: set<EventId>, id: EventId, cutoff: int)
    requires MayPurge(inbox, gone, cutoff) && IsOld(inbox - gone, id, cutoff)
    ensures inbox - gone - {id} == inbox - (gone + {id}) && |inbox - gone - {id}| == |inbox - gone| - 1
    ensures MayPurge(inbox, gone + {id}, cutoff)
    ensures forall k, c :: IsOld(inbox - gone - {id}, k, c) ==> IsOld(inbox - gone, k, c) && k != id
  {
    var rest := inbox - gone;
    assert (rest - {id}).Keys == rest.Keys - {id};
  }

  /** What was deleted had been done before the cutoff, and what was scanned and is left has not. */
  lemma OldIs(before: Inbox, after: Inbox, gone: set<EventId>, scan: seq<EventId>, all: bool, cutoff: int)
    requires MayPurge(before, gone, cutoff)
    requires all ==> forall k :: 0 <= k < |scan| ==> !IsOld(after, scan[k], cutoff)
    ensures forall id :: id in gone ==>
          id in before && before[id].state == DONE && before[id].doneAt.Some? && before[id].doneAt.value < cutoff
    ensures all ==>
          forall i :: 0 <= i < |scan| && scan[i] in after && after[scan[i]].state == DONE ==>
            after[scan[i]].doneAt.None? || after[scan[i]].doneAt.value >= cutoff
  {
  }

  lemma NothingPurged(inbox: Inbox, cutoff: int)
    ensures MayPurge(inbox, {}, cutoff) && inbox - {} == inbox
  {
  }

  lemma ReadyIsStored(inbox: Inbox, orders: Orders, id: EventId, appNow: int, now: int)
    ensures IsReady(inbox, orders, id, appNow, now) ==> id in inbox
  {
  }

  lemma OneMorePermit(permits: Permits, sellerId: SellerId, slot: nat)
    requires slot >= 1
    ensures WithPermits(permits, sellerId, slot) ==
      if Slot(sellerId, slot) in permits then WithPermits(permits, sellerId, slot - 1)
      else WithPermits(permits, sellerId, slot - 1)[Slot(sellerId, slot) := FREE]
    ensures Slot(sellerId, slot) in WithPermits(permits, sellerId, slot - 1) <==> Slot(sellerId, slot) in permits
  {
    var before, after := WithPermits(permits, sellerId, slot - 1), WithPermits(permits, sellerId, slot);
    forall s
      ensures s in after <==> s in before || s == Slot(sellerId, slot)
      ensures s in after ==> after[s] == if s in before then before[s] else FREE
    {
    }
  }

  /** The seller's first free permit in slot order. */
  method FindFree(permits: Permits, sellerId: SellerId, count: nat, now: int) returns (slot: Option<int>)
    ensures slot == FirstFree(permits, sellerId, 1, count, now)
  {
    for n := 1 to count + 1
      invariant FirstFree(permits, sellerId, 1, count, now) == FirstFree(permits, sellerId, n, count, now)
    {
      if IsFree(permits, Slot(sellerId, n), now) { return Some(n); }
    }
    slot := None;
  }

  /** The tables and the answer after one claim. */
  function Claiming(
    t: Tables, e: Event, owner: InstanceId, limits: Limits, at: ClaimClock, appNow: int, cached: bool,
    locked: bool)
    : (Tables, ClaimAttempt)
  {
    var permits := if cached then t.permits else WithPermits(t.permits, e.sellerId, limits.sellerPermits);
    var result := ClaimEnds(t.inbox, permits, t.admissions, t.orders, e, limits, at, appNow, locked);
    if result != Claimed then (t.(permits := permits), ClaimAttempt(result, None))
    else
      var c := ClaimToken(t.inbox, permits, e, owner, limits, at);
      (Tables(t.inbox[e.eventId := ClaimedRow(t.inbox[e.eventId], c, at.inbox + limits.leaseMs)],
              permits[Slot(c.sellerId, c.slot) := HeldPermit(c, at.permit + limits.leaseMs)],
              t.admissions + (if c.retry then [Admission(e.sellerId, e.eventId, at.admit)] else []),
              t.effects, t.orders),
       ClaimAttempt(Claimed, Some(c)))
  }

  function Renewed(t: Tables, claims: seq<Claim>, clocks: seq<RenewClock>, leaseMs: int): Tables
    requires |clocks| == |claims|
  {
    if claims == [] then t
    else
      var n := |claims| - 1;
      var before, c, at := Renewed(t, claims[..n], clocks[..n], leaseMs), claims[n], clocks[n];
      before.(inbox := RenewedInbox(before.inbox, c, at.row, leaseMs),
              permits := RenewedPermits(before.inbox, before.permits, c, at.row, at.permit, leaseMs))
  }

  /** The claims that no longer hold when their turn comes. */
  function Lost(t: Tables, claims: seq<Claim>, clocks: seq<RenewClock>, leaseMs: int): seq<Claim>
    requires |clocks| == |claims|
  {
    if claims == [] then []
    else
      var n := |claims| - 1;
      Lost(t, claims[..n], clocks[..n], leaseMs)
      + (if Holds(Renewed(t, claims[..n], clocks[..n], leaseMs).inbox, claims[n], clocks[n].row) then []
        else [claims[n]])
  }

  /** What the loop over a poll has gathered after some of its records. */
  ghost predicate IsGathered(
    inbox: Inbox, effects: Effects, records: seq<Record>, receivedAt: int, known: set<EventId>, rows: seq<Row>)
  {
    && ById(rows) == AddedRows(inbox, effects, records, receivedAt)
    && |rows| == |NewIds(inbox, effects, records)|
    && known == inbox.Keys + effects.Keys + NewIds(inbox, effects, records)
  }

  lemma NothingGathered(inbox: Inbox, effects: Effects, receivedAt: int)
    ensures IsGathered(inbox, effects, [], receivedAt, inbox.Keys + effects.Keys, [])
  {
    NothingIsNew(inbox, effects, receivedAt);
  }

  lemma GatherKnown(
    inbox: Inbox, effects: Effects, records: seq<Record>, receivedAt: int, known: set<EventId>, rows: seq<Row>,
    r: Record)
    requires IsGathered(inbox, effects, records, receivedAt, known, rows) && r.event.eventId in known
    ensures IsGathered(inbox, effects, records + [r], receivedAt, known, rows)
  {
    hide NewIds, AddedRows, IsFresh;
    NewIdsExtend(inbox, effects, records, r);
    AddedRowsExtend(inbox, effects, records, r, receivedAt);
  }

  lemma OneMore(ids: set<EventId>, id: EventId)
    requires id !in ids
    ensures |ids + {id}| == |ids| + 1
  {
  }

  lemma MoreKnown(stored: set<EventId>, delivered: set<EventId>, ids: set<EventId>, id: EventId)
    ensures stored + delivered + ids + {id} == stored + delivered + (ids + {id})
  {
  }

  lemma ByIdAppend(rows: seq<Row>, row: Row)
    ensures ById(rows + [row]) == ById(rows)[row.event.eventId := row]
  {
    assert (rows + [row])[..|rows|] == rows;
  }

  lemma GatherNew(
    inbox: Inbox, effects: Effects, records: seq<Record>, receivedAt: int, known: set<EventId>, rows: seq<Row>,
    r: Record)
    requires IsGathered(inbox, effects, records, receivedAt, known, rows) && r.event.eventId !in known
    ensures IsGathered(inbox, effects, records + [r], receivedAt, known + {r.event.eventId},
          rows + [NewRow(r, receivedAt)])
  {
    hide NewIds, AddedRows, IsFresh, ById;
    var id, ids := r.event.eventId, NewIds(inbox, effects, records);
    assert IsNew(inbox, effects, records, id);
    assert NewIds(inbox, effects, records + [r]) == ids + {id} by { NewIdsExtend(inbox, effects, records, r); }
    assert ById(rows + [NewRow(r, receivedAt)]) == AddedRows(inbox, effects, records + [r], receivedAt) by {
      AddedRowsExtend(inbox, effects, records, r, receivedAt);
      ByIdAppend(rows, NewRow(r, receivedAt));
    }
    OneMore(ids, id);
    MoreKnown(inbox.Keys, effects.Keys, ids, id);
  }

  lemma Gathered(
    inbox: Inbox, effects: Effects, records: seq<Record>, receivedAt: int, known: set<EventId>, rows: seq<Row>)
    requires IsGathered(inbox, effects, records, receivedAt, known, rows)
    ensures ById(rows) == AddedRows(inbox, effects, records, receivedAt) && |rows| == |NewIds(inbox, effects, records)|
  {
  }

  /** The rows to insert: one per event that is neither stored, nor delivered, nor repeated inside the poll. */
  method NewRows(inbox: Inbox, effects: Effects, records: seq<Record>, receivedAt: int) returns (rows: seq<Row>)
    ensures ById(rows) == AddedRows(inbox, effects, records, receivedAt)
    ensures |rows| == |NewIds(inbox, effects, records)|
  {
    hide IsGathered, NewIds, AddedRows, IsFresh;
    var known := inbox.Keys + effects.Keys;
    rows := [];
    NothingGathered(inbox, effects, receivedAt);
    for i := 0 to |records|
      invariant IsGathered(inbox, effects, records[..i], receivedAt, known, rows)
    {
      var record := records[i];
      assert records[..i + 1] == records[..i] + [record];
      if record.event.eventId !in known {
        GatherNew(inbox, effects, records[..i], receivedAt, known, rows, record);
        known := known + {record.event.eventId};
        rows := rows + [NewRow(record, receivedAt)];
      } else {
        GatherKnown(inbox, effects, records[..i], receivedAt, known, rows, record);
      }
    }
    assert records[..|records|] == records;
    Gathered(inbox, effects, records, receivedAt, known, rows);
  }

  class InboxRepository {
    const db: Database
    // Sellers whose permits this instance remembers having created.
    var sellersWithPermits: set<SellerId>

    constructor (db: Database)
      ensures this.db == db && sellersWithPermits == {}
    {
      this.db := db;
      sellersWithPermits := {};
    }

    /**
     * Either all new events of the poll get a row, each one row, or they do not all fit and none does.
     */
    method StoreAll(
      records: seq<Record>, pendingLimit: int, retainedLimit: int, receivedAt: int) returns (r: StoreResult)
      modifies db
      ensures var after :=
            InboxTables.StoreAll(old(db.inbox), old(db.effects), records, pendingLimit, retainedLimit, receivedAt);
              && (r.InboxFull? <==> after.None?)
              && db.Content() == old(db.Content()).(inbox := if after.Some? then after.value else old(db.inbox))
      ensures r.Inserted? ==> r.count == |NewIds(old(db.inbox), old(db.effects), records)|
    {
      hide NewIds, AddedRows, IsFresh, PendingIds;
      if records == [] {
        NothingIsNew(db.inbox, db.effects, receivedAt);
        return Inserted(0);
      }
      var rows := NewRows(db.inbox, db.effects, records, receivedAt);
      if rows == [] { return Inserted(0); }
      if |PendingIds(db.inbox)| + |rows| > pendingLimit || |db.inbox| + |rows| > retainedLimit { return InboxFull; }
      db.inbox := db.inbox + ById(rows);
      r := Inserted(|rows|);
    }

    /** Creates the seller's missing permits, unless this instance remembers having done so. */
    method EnsurePermits(sellerId: SellerId, count: nat)
      modifies this, db
      ensures db.Content() == old(db.Content()).(permits :=
                if sellerId in old(sellersWithPermits) then old(db.permits)
                else WithPermits(old(db.permits), sellerId, count))
      ensures sellersWithPermits == old(sellersWithPermits) + {sellerId}
    {
      if sellerId in sellersWithPermits { return; }
      for slot := 1 to count + 1
        invariant db.Content() == old(db.Content()).(permits := WithPermits(old(db.permits), sellerId, slot - 1))
        invariant sellersWithPermits == old(sellersWithPermits)
      {
        if Slot(sellerId, slot) !in db.permits {
          db.permits := db.permits[Slot(sellerId, slot) := FREE];
        }
        OneMorePermit(old(db.permits), sellerId, slot);
      }
      sellersWithPermits := sellersWithPermits + {sellerId};
    }

    /**
     * The answer and the tables are those of the specified claim. Only a claim that is
     * granted changes the row, the permit and, for a retry, the admissions.
     */
    method Claim(
      e: Event, owner: InstanceId, limits: Limits, at: ClaimClock, appNow: int, locked: bool)
      returns (attempt: ClaimAttempt)
      modifies this, db
      ensures var (tables, answer) :=
            Claiming(old(db.Content()), e, owner, limits, at, appNow, e.sellerId in old(sellersWithPermits), locked);
              db.Content() == tables && attempt == answer
      ensures sellersWithPermits == old(sellersWithPermits) + {e.sellerId}
    {
      hide WithPermits, FirstFree, IsReady, CountSince;
      EnsurePermits(e.sellerId, limits.sellerPermits);
      ReadyIsStored(db.inbox, db.orders, e.eventId, appNow, at.row);
      var slot := FindFree(db.permits, e.sellerId, limits.sellerPermits, at.permits);
      if slot == None { return ClaimAttempt(SellerFull, None); }
      if locked || !IsReady(db.inbox, db.orders, e.eventId, appNow, at.row) { return ClaimAttempt(Taken, None); }
      var row := db.inbox[e.eventId];
      var generation, retry := row.generation + 1, row.attempts > 0;
      if retry {
        var used := CountSince(db.admissions, e.sellerId, at.count - limits.retryWindowMs);
        if used >= limits.retryBudget { return ClaimAttempt(RetryBudget, None); }
        db.admissions := db.admissions + [Admission(e.sellerId, e.eventId, at.admit)];
      }
      db.inbox := db.inbox[e.eventId := row.(state := CLAIMED, owner := Some(owner), generation := generation,
                                             attempts := row.attempts + 1, leaseUntil := at.inbox + limits.leaseMs)];
      db.permits := db.permits[Slot(e.sellerId, slot.value) :=
                                 Permit(Some(owner), Some(e.eventId), generation, at.permit + limits.leaseMs)];
      var reclaimed := row.state == CLAIMED;
      attempt := ClaimAttempt(Claimed,
        Some(InboxTables.Claim(e.eventId, e.sellerId, owner, generation, slot.value, retry, reclaimed)));
    }

    /** A claim whose transaction is rolled back; what the instance remembers of the permits is not. */
    method ClaimRolledBack(sellerId: SellerId, permitsEnsured: bool)
      modifies this`sellersWithPermits
      ensures sellersWithPermits == old(sellersWithPermits) + if permitsEnsured then {sellerId} else {}
    {
      if permitsEnsured {
        sellersWithPermits := sellersWithPermits + {sellerId};
      }
    }

    /** The tables after the claims' renewals in turn; the answer lists the claims that got none. */
    method Renew(claims: seq<Claim>, leaseMs: int, clocks: seq<RenewClock>) returns (lost: seq<Claim>)
      requires |clocks| == |claims|
      modifies db
      ensures db.Content() == Renewed(old(db.Content()), claims, clocks, leaseMs)
      ensures lost == Lost(old(db.Content()), claims, clocks, leaseMs)
    {
      lost := [];
      for i := 0 to |claims|
        invariant db.Content() == Renewed(old(db.Content()), claims[..i], clocks[..i], leaseMs)
        invariant lost == Lost(old(db.Content()), claims[..i], clocks[..i], leaseMs)
      {
        var claim, at := claims[i], clocks[i];
        assert claims[..i + 1][..i] == claims[..i] && clocks[..i + 1][..i] == clocks[..i];
        if Holds(db.inbox, claim, at.row) {
          var slot := Slot(claim.sellerId, claim.slot);
          db.inbox := db.inbox[claim.eventId := db.inbox[claim.eventId].(leaseUntil := at.row + leaseMs)];
          if HoldsPermit(db.permits, claim) {
            db.permits := db.permits[slot := db.permits[slot].(leaseUntil := at.permit + leaseMs)];
          }
        } else {
          lost := lost + [claim];
        }
      }
      assert claims[..|claims|] == claims && clocks[..|clocks|] == clocks;
    }

    /** Agrees with Holds, so a lapsed claim fails whether or not the row has a newer one. */
    method StillHolds(claim: Claim, now: int) returns (held: bool)
      ensures held <==> Holds(db.inbox, claim, now)
    {
      held := claim.eventId in db.inbox;
      if held {
        var row := db.inbox[claim.eventId];
        held := row.owner == Some(claim.owner) && row.generation == claim.generation && row.state == CLAIMED
          && row.leaseUntil >= now;
      }
    }

    method Complete(claim: Claim, doneAt: int)
      modifies db
      ensures db.Content() ==
        old(db.Content()).(inbox := Completed(old(db.inbox), claim, doneAt),
          permits := Released(old(db.permits), claim))
    {
      if Names(db.inbox, claim) {
        var done := db.inbox[claim.eventId].(state := DONE, doneAt := Some(doneAt), owner := None, leaseUntil := 0);
        db.inbox := db.inbox[claim.eventId := done];
      }
      Release(claim);
    }

    /** The row waits again only under a holding token, whereas the permit needs no lease to be given up. */
    method GiveBack(claim: Claim, now: int, nextAt: int) returns (held: bool)
      modifies db
      ensures db.Content() ==
        old(db.Content()).(inbox := GivenBack(old(db.inbox), claim, now, nextAt),
          permits := Released(old(db.permits), claim))
      ensures held <==> Holds(old(db.inbox), claim, now)
    {
      held := StillHolds(claim, now);
      if held {
        var row := db.inbox[claim.eventId];
        db.inbox := db.inbox[claim.eventId := row.(state := PENDING, owner := None, leaseUntil := 0, nextAt := nextAt)];
      }
      Release(claim);
    }

    /** No other claim's permit changes. */
    method Release(claim: Claim)
      modifies db
      ensures db.Content() == old(db.Content()).(permits := Released(old(db.permits), claim))
    {
      var slot := Slot(claim.sellerId, claim.slot);
      if slot in db.permits {
        var permit := db.permits[slot];
        if permit.owner == Some(claim.owner) && permit.eventId == Some(claim.eventId)
          && permit.generation == claim.generation {
          db.permits := db.permits[slot := permit.(owner := None, eventId := None, leaseUntil := 0)];
        }
      }
    }

    /**
     * Goes through rows in the order the database happens to scan them and deletes those that are old
     * enough, until the limit is reached. Stopping short of it means that no scanned row is left to delete.
     */
    method DeleteDoneBefore(
      cutoff: int, limit: nat, scan: seq<EventId>) returns (deleted: nat, ghost gone: set<EventId>)
      modifies db
      ensures db.Content() == old(db.Content()).(inbox := old(db.inbox) - gone)
      ensures MayPurge(old(db.inbox), gone, cutoff)
      ensures forall id :: id in gone ==>
        && id in old(db.inbox) && old(db.inbox)[id].state == DONE && old(db.inbox)[id].doneAt.Some?
        && old(db.inbox)[id].doneAt.value < cutoff
      ensures deleted == |old(db.inbox)| - |db.inbox| <= limit
      ensures deleted < limit ==>
        forall i :: 0 <= i < |scan| && scan[i] in db.inbox && db.inbox[scan[i]].state == DONE ==>
          db.inbox[scan[i]].doneAt.None? || db.inbox[scan[i]].doneAt.value >= cutoff
    {
      hide MayPurge, IsOld;
      deleted, gone := 0, {};
      NothingPurged(db.inbox, cutoff);
      for i := 0 to |scan|
        invariant db.Content() == old(db.Content()).(inbox := old(db.inbox) - gone)
        invariant MayPurge(old(db.inbox), gone, cutoff)
        invariant deleted == |old(db.inbox)| - |db.inbox| <= limit
        invariant deleted < limit ==> forall k :: 0 <= k < i ==> !IsOld(db.inbox, scan[k], cutoff)
      {
        if deleted == limit { break; }
        if IsOld(db.inbox, scan[i], cutoff) {
          OneFewer(old(db.inbox), gone, scan[i], cutoff);
          assert !IsOld(db.inbox - {scan[i]}, scan[i], cutoff);
          db.inbox := db.inbox - {scan[i]};
          gone := gone + {scan[i]};
          deleted := deleted + 1;
        }
      }
      OldIs(old(db.inbox), db.inbox, gone, scan, deleted < limit, cutoff);
    }
  }
}
