/** What one poll's transaction does to the inbox. */
module IntakeLemmas {
  import opened Domain
  import opened InboxTables
  import opened SellerApi
  import opened DeliveryProtocol
  import opened DeliveryInvariant
  import opened TableLemmas

  lemma RecordsAreNewOrStored(inbox: Inbox, effects: Effects, records: seq<Record>)
    ensures forall r :: r in records ==>
          Stored(inbox, effects, r.event.eventId) || r.event.eventId in NewIds(inbox, effects, records)
    ensures forall id :: id in NewIds(inbox, effects, records) ==> id !in inbox
  {
  }

  lemma AdditionIsExact(inbox: Inbox, added: Inbox)
    requires added.Keys !! inbox.Keys
    ensures (inbox + added).Keys == inbox.Keys + added.Keys
    ensures forall id :: id in inbox ==> (inbox + added)[id] == inbox[id]
    ensures forall id :: id in added ==> (inbox + added)[id] == added[id]
  {
  }

  lemma MoreIsStored(inbox: Inbox, after: Inbox, effects: Effects, ids: set<EventId>, id: EventId)
    requires after.Keys == inbox.Keys + ids && (Stored(inbox, effects, id) || id in ids)
    ensures Stored(after, effects, id)
  {
    assert id in inbox.Keys + ids ==> id in after.Keys;
  }

  /**
   * A poll inserts exactly its distinct new events, as fresh pending rows, or nothing at all; it
   * never touches a row that is already there.
   */
  lemma StoreAllIsExact(
    inbox: Inbox, effects: Effects, records: seq<Record>, pendingLimit: int, retainedLimit: int, receivedAt: int)
    ensures var after := StoreAll(inbox, effects, records, pendingLimit, retainedLimit, receivedAt);
            after.Some? ==>
              && after.value.Keys == inbox.Keys + NewIds(inbox, effects, records)
              && (forall id :: id in inbox ==> after.value[id] == inbox[id])
              && (forall id :: id in NewIds(inbox, effects, records) ==>
                    IsFresh(records, id, after.value[id], receivedAt))
              && (forall r :: r in records ==> Stored(after.value, effects, r.event.eventId))
  {
    hide NewIds, AddedRows, Stored, HasRoom, IsFresh;
    RecordsAreNewOrStored(inbox, effects, records);
    var ids := NewIds(inbox, effects, records);
    if ids == {} {
      assert inbox.Keys == inbox.Keys + ids;
    } else {
      AdditionIsExact(inbox, AddedRows(inbox, effects, records, receivedAt));
    }
    var after := StoreAll(inbox, effects, records, pendingLimit, retainedLimit, receivedAt);
    if after.Some? {
      hide StoreAll;
      forall r | r in records
        ensures Stored(after.value, effects, r.event.eventId)
      {
        MoreIsStored(inbox, after.value, effects, ids, r.event.eventId);
      }
    }
  }

  /** The capacity check counts exactly what the insert adds. */
  lemma StoreKeepsCapacity(
    inbox: Inbox, effects: Effects, records: seq<Record>, pendingLimit: nat, retainedLimit: nat, receivedAt: int)
    requires CapacityOk(inbox, pendingLimit, retainedLimit)
    ensures var after := StoreAll(inbox, effects, records, pendingLimit, retainedLimit, receivedAt);
            after.Some? ==> CapacityOk(after.value, pendingLimit, retainedLimit)
  {
    StoreAllIsExact(inbox, effects, records, pendingLimit, retainedLimit, receivedAt);
    var after, ids :=
      StoreAll(inbox, effects, records, pendingLimit, retainedLimit, receivedAt), NewIds(inbox, effects, records);
    if after.Some? && ids != {} {
      SubsetIsSmaller(PendingIds(after.value), PendingIds(inbox) + ids);
      assert |PendingIds(inbox) + ids| == |PendingIds(inbox)| + |ids|;
      assert |inbox.Keys + ids| == |inbox.Keys| + |ids|;
    }
  }

  lemma StoreKeepsInbox(
    catalogue: map<EventId, Event>, inbox: Inbox, effects: Effects, orders: Orders, issued: set<Claim>,
    records: seq<Record>, pendingLimit: int, retainedLimit: int, receivedAt: int)
    requires InboxOk(catalogue, inbox, effects, orders) && TokensOk(catalogue, inbox, effects, issued)
    requires forall r :: r in records ==> Known(catalogue, r.event)
    ensures var after := StoreAll(inbox, effects, records, pendingLimit, retainedLimit, receivedAt);
            after.Some? ==>
              InboxOk(catalogue, after.value, effects, orders) && TokensOk(catalogue, after.value, effects, issued)
  {
    StoreAllIsExact(inbox, effects, records, pendingLimit, retainedLimit, receivedAt);
    var after := StoreAll(inbox, effects, records, pendingLimit, retainedLimit, receivedAt);
    if after.Some? {
      forall id | id in after.value
        ensures RowOk(catalogue, effects, orders, id, after.value[id])
      {
        if id in inbox {
          assert RowOk(catalogue, effects, orders, id, inbox[id]);
        } else {
          var r :| r in records && r.event.eventId == id && after.value[id] == NewRow(r, receivedAt);
          assert Known(catalogue, r.event);
        }
      }
      forall c | c in issued
        ensures TokenOk(catalogue, after.value, effects, c)
      {
        assert TokenOk(catalogue, inbox, effects, c);
      }
      forall id | id in after.value && after.value[id].state == CLAIMED
        ensures exists c :: c in issued && c.eventId == id && Names(after.value, c)
      {
        var c :| c in issued && c.eventId == id && Names(inbox, c);
        assert Names(after.value, c);
      }
    }
  }

  lemma StoreKeepsPermits(
    catalogue: map<EventId, Event>, inbox: Inbox, effects: Effects, permits: Permits, issued: set<Claim>,
    sellerPermits: nat, clock: int, records: seq<Record>, pendingLimit: int, retainedLimit: int, receivedAt: int)
    requires TokensOk(catalogue, inbox, effects, issued) && PermitsOk(inbox, permits, issued, sellerPermits, clock)
    ensures var after := StoreAll(inbox, effects, records, pendingLimit, retainedLimit, receivedAt);
            after.Some? ==> PermitsOk(after.value, permits, issued, sellerPermits, clock)
  {
    StoreAllIsExact(inbox, effects, records, pendingLimit, retainedLimit, receivedAt);
    var after := StoreAll(inbox, effects, records, pendingLimit, retainedLimit, receivedAt);
    if after.Some? {
      forall c | c in issued && Holds(after.value, c, clock)
        ensures Covered(after.value, permits, c)
      {
        assert TokenOk(catalogue, inbox, effects, c);
        assert Holds(inbox, c, clock) && Covered(inbox, permits, c);
      }
    }
  }

  /** What was stored stays stored while rows are added or, once delivered, deleted. */
  lemma KeepsOffsets(
    cfg: Config, inbox: Inbox, effects: Effects, inbox': Inbox, effects': Effects, committed: map<int, nat>,
    positions: map<Cursor, nat>, acks: set<Ack>)
    requires OffsetsOk(cfg, inbox, effects, committed, positions, acks)
    requires forall id :: Stored(inbox, effects, id) ==> Stored(inbox', effects', id)
    ensures OffsetsOk(cfg, inbox', effects', committed, positions, acks)
  {
  }

  lemma PolledIsStored(
    cfg: Config, inbox: Inbox, effects: Effects, inbox': Inbox, positions: map<Cursor, nat>, instance: InstanceId,
    upto: map<int, nat>, records: seq<Record>, p: int)
    requires IsPoll(cfg, positions, instance, upto, records) && p in upto
    requires StoredUpTo(cfg, inbox, effects, p, positions[Cursor(instance, p)])
    requires forall id :: id in inbox ==> id in inbox'
    requires forall r :: r in records ==> Stored(inbox', effects, r.event.eventId)
    ensures StoredUpTo(cfg, inbox', effects, p, upto[p])
  {
    forall o | 0 <= o < upto[p]
      ensures Stored(inbox', effects, cfg.topic[p][o].eventId)
    {
      if o >= positions[Cursor(instance, p)] {
        assert Record(cfg.topic[p][o], p, o) in records;
      } else {
        assert Stored(inbox, effects, cfg.topic[p][o].eventId);
      }
    }
  }

  /** The poll's cursors move only over records that are now stored. */
  lemma PollKeepsOffsets(
    cfg: Config, inbox: Inbox, effects: Effects, inbox': Inbox, committed: map<int, nat>,
    positions: map<Cursor, nat>, acks: set<Ack>, instance: InstanceId, upto: map<int, nat>, records: seq<Record>)
    requires OffsetsOk(cfg, inbox, effects, committed, positions, acks)
    requires IsPoll(cfg, positions, instance, upto, records)
    requires forall id :: id in inbox ==> id in inbox'
    requires forall r :: r in records ==> Stored(inbox', effects, r.event.eventId)
    ensures OffsetsOk(cfg, inbox', effects, committed, Advanced(positions, instance, upto),
          acks + {Ack(instance, upto)})
  {
    KeepsOffsets(cfg, inbox, effects, inbox', effects, committed, positions, acks);
    forall p | p in upto
      ensures StoredUpTo(cfg, inbox', effects, p, upto[p])
    {
      PolledIsStored(cfg, inbox, effects, inbox', positions, instance, upto, records, p);
    }
    var positions' := Advanced(positions, instance, upto);
    forall k | k in positions'
      ensures StoredUpTo(cfg, inbox', effects, k.partition, positions'[k])
    {
      if k.instance == instance && k.partition in upto {
        assert k == Cursor(instance, k.partition);
      } else {
        assert k in positions && positions'[k] == positions[k];
      }
    }
  }
}
