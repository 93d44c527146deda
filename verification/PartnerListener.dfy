/** Intake: what a poll leaves in the tables, and when its offsets may be acknowledged. */
module Listening {
  import opened Domain
  import opened InboxTables
  import opened PartnerDatabase
  import opened InboxStore
  import opened DeliveryInvariant
  import opened IntakeLemmas

  datatype Received = Acknowledged | Malformed | Full

  /** The next offset of each partition after the first records of a poll, never going back. */
  function Advanced(offsets: map<int, nat>, records: seq<Record>): map<int, nat> {
    if records == [] then offsets
    else
      var before, r := Advanced(offsets, records[..|records| - 1]), records[|records| - 1];
      before[r.partition :=
        if r.partition in before && before[r.partition] > r.offset + 1 then before[r.partition] else r.offset + 1]
  }

  /** How many records come before the first that fails validation. */
  function ValidPrefix(records: seq<Record>): (n: nat)
    ensures n <= |records|
    ensures forall i :: 0 <= i < n ==> records[i].event.Valid()
    ensures n < |records| ==> !records[n].event.Valid()
  {
    if records == [] || !records[0].event.Valid() then 0 else 1 + ValidPrefix(records[1..])
  }

  lemma NothingAdvances(offsets: map<int, nat>)
    ensures Advanced(offsets, []) == offsets
  {
  }

  lemma OneMoreAdvances(offsets: map<int, nat>, records: seq<Record>, i: nat)
    requires i < |records|
    ensures var before, p, next := Advanced(offsets, records[..i]), records[i].partition, records[i].offset + 1;
            Advanced(offsets, records[..i + 1])
              == before[p := if p in before && before[p] > next then before[p] else next]
  {
    assert records[..i + 1][..i] == records[..i];
  }

  /** The first offset behind everything seen of a partition, however records and partitions are mixed. */
  ghost predicate IsBehindAll(offsets: map<int, nat>, records: seq<Record>, p: int, next: nat) {
    && (p in offsets ==> offsets[p] <= next)
    && (forall i :: 0 <= i < |records| && records[i].partition == p ==> records[i].offset < next)
    && ((p in offsets && offsets[p] == next)
        || exists i :: 0 <= i < |records| && records[i].partition == p && records[i].offset + 1 == next)
  }

  lemma {:induction false} AdvancedIsBehindAll(offsets: map<int, nat>, records: seq<Record>, p: int)
    ensures var after := Advanced(offsets, records);
            && (p in after <==> p in offsets || exists i :: 0 <= i < |records| && records[i].partition == p)
            && (p in after ==> IsBehindAll(offsets, records, p, after[p]))
  {
    if records != [] {
      var n := |records| - 1;
      AdvancedIsBehindAll(offsets, records[..n], p);
      assert forall i :: 0 <= i < n ==> records[..n][i] == records[i];
      var before, after := Advanced(offsets, records[..n]), Advanced(offsets, records);
      if records[n].partition == p {
        assert after[p] == records[n].offset + 1 || (p in before && after[p] == before[p]);
      }
      if p in before && !(p in offsets && offsets[p] == before[p]) {
        var i :| 0 <= i < n && records[..n][i].partition == p && records[..n][i].offset + 1 == before[p];
        assert records[i].partition == p && records[i].offset + 1 == before[p];
      }
    }
  }

  /** One of the values that every request must have is out of its range. */
  predicate IsMalformed(e: Event) {
    e.orderId <= 0 || e.sequence <= 0 || e.occurredAt <= 0 || e.quantity <= 0 || e.price < 0.0
  }

  lemma {:induction false} ShortPrefixIsMalformed(records: seq<Record>)
    ensures ValidPrefix(records) < |records| <==> exists i :: 0 <= i < |records| && IsMalformed(records[i].event)
  {
    var n := ValidPrefix(records);
    if n < |records| {
      assert IsMalformed(records[n].event);
    } else {
      assert forall i :: 0 <= i < |records| ==> records[i].event.Valid();
    }
  }

  /** A committed poll has stored everything it brought, within the limits; a refused one had no room. */
  lemma PollIsSafe(
    inbox: Inbox, effects: Effects, records: seq<Record>, pendingLimit: nat, retainedLimit: nat, receivedAt: int)
    ensures var after := StoreAll(inbox, effects, records, pendingLimit, retainedLimit, receivedAt);
            && (after.Some? ==>
                  (forall i :: 0 <= i < |records| ==> Stored(after.value, effects, records[i].event.eventId))
                  && (CapacityOk(inbox, pendingLimit, retainedLimit) ==>
                        CapacityOk(after.value, pendingLimit, retainedLimit)))
            && (after.None? ==>
                  var added := |NewIds(inbox, effects, records)|;
                    added > 0 && !HasRoom(inbox, added, pendingLimit, retainedLimit))
  {
    StoreAllIsExact(inbox, effects, records, pendingLimit, retainedLimit, receivedAt);
    if CapacityOk(inbox, pendingLimit, retainedLimit) {
      StoreKeepsCapacity(inbox, effects, records, pendingLimit, retainedLimit, receivedAt);
    }
  }

  class PartnerListener {
    const inbox: InboxRepository
    const backlogLimit: nat
    const retainedLimit: nat
    var receivedOffsets: map<int, nat>

    constructor (inbox: InboxRepository, backlogLimit: nat, retainedLimit: nat)
      ensures this.inbox == inbox && this.backlogLimit == backlogLimit && this.retainedLimit == retainedLimit
      ensures receivedOffsets == map[]
    {
      this.inbox, this.backlogLimit, this.retainedLimit, receivedOffsets := inbox, backlogLimit, retainedLimit, map[];
    }

    /**
     * A poll is acknowledged only when every one of its events is stored or delivered. A malformed
     * record or a full inbox leaves the tables as they were, and the poll is read again.
     */
    method ReceiveBatch(records: seq<Record>, receivedAt: int) returns (r: Received)
      requires records != []
      modifies this, inbox.db
      ensures receivedOffsets == Advanced(old(receivedOffsets), records[..ValidPrefix(records)])
      ensures r.Malformed? <==> exists i :: 0 <= i < |records| && IsMalformed(records[i].event)
      ensures r.Acknowledged? ==>
            forall i :: 0 <= i < |records| ==> Stored(inbox.db.inbox, inbox.db.effects, records[i].event.eventId)
      ensures r.Acknowledged? ==> inbox.db.Content() == old(inbox.db.Content()).(inbox := inbox.db.inbox)
      ensures r.Acknowledged? && CapacityOk(old(inbox.db.inbox), backlogLimit, retainedLimit) ==>
        CapacityOk(inbox.db.inbox, backlogLimit, retainedLimit)
      ensures !r.Acknowledged? ==> inbox.db.Content() == old(inbox.db.Content())
      ensures r.Full? ==>
        var added := |NewIds(old(inbox.db.inbox), old(inbox.db.effects), records)|;
        added > 0 && !HasRoom(old(inbox.db.inbox), added, backlogLimit, retainedLimit)
    {
      hide NewIds, CapacityOk, HasRoom, Stored, StoreAll, ValidPrefix, Advanced, IsMalformed;
      ShortPrefixIsMalformed(records);
      var tasks := Read(records);
      if |tasks| < |records| { return Malformed; }
      assert tasks == records;
      PollIsSafe(inbox.db.inbox, inbox.db.effects, records, backlogLimit, retainedLimit, receivedAt);
      var stored := inbox.StoreAll(tasks, backlogLimit, retainedLimit, receivedAt);
      if stored.InboxFull? { return Full; }
      r := Acknowledged;
    }

    /** Reads the records up to the first malformed one. */
    method Read(records: seq<Record>) returns (tasks: seq<Record>)
      modifies this`receivedOffsets
      ensures tasks == records[..ValidPrefix(records)]
      ensures receivedOffsets == Advanced(old(receivedOffsets), tasks)
    {
      hide Advanced, ValidPrefix, Event.Valid;
      tasks := [];
      NothingAdvances(receivedOffsets);
      for i := 0 to |records|
        invariant tasks == records[..i] && i <= ValidPrefix(records)
        invariant receivedOffsets == Advanced(old(receivedOffsets), records[..i])
      {
        if !records[i].event.Valid() { return; }
        OneMoreAdvances(old(receivedOffsets), records, i);
        var p, next := records[i].partition, records[i].offset + 1;
        receivedOffsets :=
          receivedOffsets[p := if p in receivedOffsets && receivedOffsets[p] > next then receivedOffsets[p] else next];
        tasks := tasks + [records[i]];
      }
    }
  }
}
