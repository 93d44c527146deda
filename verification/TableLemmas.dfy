/** What single writes to the ledger, the inbox and the permits keep. */
module TableLemmas {
  import opened Domain
  import opened InboxTables
  import opened SellerApi
  import opened DeliveryProtocol
  import opened DeliveryInvariant

  // ---- ledgers

  /** An event is in the ledger exactly when its sequence is not above the order's last one. */
  lemma InLedger(catalogue: map<EventId, Event>, effects: Effects, orders: Orders, e: Event)
    requires WellNumbered(catalogue) && LedgerOk(catalogue, effects, orders) && Known(catalogue, e)
    ensures e.eventId in effects <==> e.sequence <= LastSequence(orders, e.Key())
    ensures Collides(effects, e) <==> e.eventId in effects
    ensures e.eventId in effects ==> effects[e.eventId] == e
  {
    if e.sequence <= LastSequence(orders, e.Key()) {
      assert Delivered(effects, e.Key(), e.sequence);
      var id :| id in effects && effects[id].Key() == e.Key() && effects[id].sequence == e.sequence;
      assert SamePlace(catalogue[id], catalogue[e.eventId]);
    }
    forall id | id in effects && effects[id].Key() == e.Key() && effects[id].sequence == e.sequence
      ensures id == e.eventId
    {
      assert SamePlace(catalogue[id], catalogue[e.eventId]);
    }
  }

  lemma RecordKeepsLedger(catalogue: map<EventId, Event>, effects: Effects, orders: Orders, e: Event)
    requires WellNumbered(catalogue) && LedgerOk(catalogue, effects, orders) && Known(catalogue, e)
    requires e.sequence == LastSequence(orders, e.Key()) + 1
    ensures LedgerOk(catalogue, effects[e.eventId := e], orders[e.Key() := e.Latest()])
  {
    InLedger(catalogue, effects, orders, e);
    var effects', orders' := effects[e.eventId := e], orders[e.Key() := e.Latest()];
    forall key, n | 1 <= n <= LastSequence(orders', key)
      ensures Delivered(effects', key, n)
    {
      if key == e.Key() && n == e.sequence {
        assert effects'[e.eventId].Key() == key && effects'[e.eventId].sequence == n;
      } else {
        assert Delivered(effects, key, n);
        var id :| id in effects && effects[id].Key() == key && effects[id].sequence == n;
        assert id in effects' && effects'[id] == effects[id];
      }
    }
  }

  // ---- inbox rows

  lemma ClaimedIsUndelivered(catalogue: map<EventId, Event>, inbox: Inbox, effects: Effects, orders: Orders, c: Claim)
    requires InboxOk(catalogue, inbox, effects, orders) && Names(inbox, c)
    ensures inbox[c.eventId].state == CLAIMED && c.eventId !in effects
  {
    assert RowOk(catalogue, effects, orders, c.eventId, inbox[c.eventId]);
  }

  /** Recording an event whose row is claimed, or that has no row, leaves the inbox in step with the ledger. */
  lemma RecordKeepsInbox(
    catalogue: map<EventId, Event>, inbox: Inbox, effects: Effects, orders: Orders, e: Event, c: Claim,
    doneAt: int)
    requires WellNumbered(catalogue) && InboxOk(catalogue, inbox, effects, orders) && Known(catalogue, e)
    requires c.eventId == e.eventId && Names(inbox, c)
    ensures InboxOk(catalogue, Completed(inbox, c, doneAt), effects[e.eventId := e], orders[e.Key() := e.Latest()])
  {
    ClaimedIsUndelivered(catalogue, inbox, effects, orders, c);
    var inbox', orders' := Completed(inbox, c, doneAt), orders[e.Key() := e.Latest()];
    forall id | id in inbox'
      ensures RowOk(catalogue, effects[e.eventId := e], orders', id, inbox'[id])
    {
      assert RowOk(catalogue, effects, orders, id, inbox[id]);
      assert RowOk(catalogue, effects, orders, e.eventId, inbox[e.eventId]);
      assert SamePlace(catalogue[id], catalogue[e.eventId]) ==> id == e.eventId;
    }
  }

  // ---- tokens

  /** A row write that keeps the generation, and claims nothing new, keeps every token's standing. */
  lemma RowWriteKeepsTokens(
    catalogue: map<EventId, Event>, inbox: Inbox, effects: Effects, issued: set<Claim>, id: EventId, row: Row)
    requires TokensOk(catalogue, inbox, effects, issued) && id in inbox && row.generation == inbox[id].generation
    requires row.state == CLAIMED ==> inbox[id].state == CLAIMED && row.owner == inbox[id].owner
    ensures TokensOk(catalogue, inbox[id := row], effects, issued)
  {
    var inbox' := inbox[id := row];
    forall i | i in inbox' && inbox'[i].state == CLAIMED
      ensures exists c :: c in issued && c.eventId == i && Names(inbox', c)
    {
      var c :| c in issued && c.eventId == i && Names(inbox, c);
      assert Names(inbox', c);
    }
    forall c | c in issued
      ensures TokenOk(catalogue, inbox', effects, c)
    {
      assert TokenOk(catalogue, inbox, effects, c);
    }
  }

  /** A new generation of a row is a token no one holds yet. */
  lemma ClaimKeepsTokens(
    catalogue: map<EventId, Event>, inbox: Inbox, effects: Effects, issued: set<Claim>, c: Claim, leaseUntil: int)
    requires TokensOk(catalogue, inbox, effects, issued) && c.eventId in inbox
    requires c.generation == inbox[c.eventId].generation + 1
    requires c.eventId in catalogue && c.sellerId == catalogue[c.eventId].sellerId
    ensures TokensOk(catalogue, inbox[c.eventId := ClaimedRow(inbox[c.eventId], c, leaseUntil)], effects, issued + {c})
    ensures c !in issued
  {
    var inbox' := inbox[c.eventId := ClaimedRow(inbox[c.eventId], c, leaseUntil)];
    forall d | d in issued
      ensures TokenOk(catalogue, inbox', effects, d) && (d.eventId == c.eventId ==> d.generation < c.generation)
    {
      assert TokenOk(catalogue, inbox, effects, d);
    }
    forall i | i in inbox' && inbox'[i].state == CLAIMED
      ensures exists d :: d in issued + {c} && d.eventId == i && Names(inbox', d)
    {
      if i == c.eventId {
        assert c in issued + {c} && Names(inbox', c);
      } else {
        var d :| d in issued && d.eventId == i && Names(inbox, d);
        assert d in issued + {c} && Names(inbox', d);
      }
    }
  }

  // ---- permits

  lemma TimeKeepsPermits(inbox: Inbox, permits: Permits, issued: set<Claim>, sellerPermits: nat, clock: int, later: int)
    requires PermitsOk(inbox, permits, issued, sellerPermits, clock) && clock <= later
    ensures PermitsOk(inbox, permits, issued, sellerPermits, later)
  {
    assert forall c :: c in issued && Holds(inbox, c, later) ==> Holds(inbox, c, clock);
  }

  /** A token that holds nothing frees at most the slot that carries it, never another claim's. */
  lemma ReleaseKeepsPermits(
    inbox: Inbox, permits: Permits, issued: set<Claim>, sellerPermits: nat, clock: int, c: Claim)
    requires DistinctTokens(issued) && PermitsOk(inbox, permits, issued, sellerPermits, clock)
    requires c in issued && !Holds(inbox, c, clock)
    ensures PermitsOk(inbox, Released(permits, c), issued, sellerPermits, clock)
  {
    forall d | d in issued && Holds(inbox, d, clock)
      ensures Covered(inbox, Released(permits, c), d)
    {
      assert Covered(inbox, permits, d);
      assert d.eventId == c.eventId && d.generation == c.generation ==> d == c;
    }
  }

  /** A row that stops being claimed asks nothing of the permits. */
  lemma UnclaimKeepsPermits(
    inbox: Inbox, permits: Permits, issued: set<Claim>, sellerPermits: nat, clock: int, id: EventId, row: Row)
    requires PermitsOk(inbox, permits, issued, sellerPermits, clock) && id in inbox && row.state != CLAIMED
    ensures PermitsOk(inbox[id := row], permits, issued, sellerPermits, clock)
  {
    var inbox' := inbox[id := row];
    forall c | c in issued && Holds(inbox', c, clock)
      ensures Covered(inbox', permits, c)
    {
      assert Holds(inbox, c, clock) && Covered(inbox, permits, c);
    }
  }

  lemma EnsureKeepsPermits(
    inbox: Inbox, permits: Permits, issued: set<Claim>, sellerPermits: nat, clock: int, sellerId: SellerId)
    requires PermitsOk(inbox, permits, issued, sellerPermits, clock)
    ensures PermitsOk(inbox, WithPermits(permits, sellerId, sellerPermits), issued, sellerPermits, clock)
  {
    forall c | c in issued && Holds(inbox, c, clock)
      ensures Covered(inbox, WithPermits(permits, sellerId, sellerPermits), c)
    {
      assert Covered(inbox, permits, c);
    }
  }

  /** The claim takes a slot that no unexpired claim stands on. */
  lemma ClaimKeepsPermits(
    catalogue: map<EventId, Event>, inbox: Inbox, effects: Effects, permits: Permits, issued: set<Claim>,
    sellerPermits: nat, clock: int, c: Claim, leaseUntil: int, permitUntil: int)
    requires TokensOk(catalogue, inbox, effects, issued) && PermitsOk(inbox, permits, issued, sellerPermits, clock)
    requires c.eventId in inbox && c.generation == inbox[c.eventId].generation + 1
    requires IsFree(permits, Slot(c.sellerId, c.slot), clock) && leaseUntil <= permitUntil
    ensures PermitsOk(inbox[c.eventId := ClaimedRow(inbox[c.eventId], c, leaseUntil)],
                      permits[Slot(c.sellerId, c.slot) := HeldPermit(c, permitUntil)], issued
                        + {c}, sellerPermits, clock)
  {
    var inbox' := inbox[c.eventId := ClaimedRow(inbox[c.eventId], c, leaseUntil)];
    var permits' := permits[Slot(c.sellerId, c.slot) := HeldPermit(c, permitUntil)];
    forall d | d in issued + {c} && Holds(inbox', d, clock)
      ensures Covered(inbox', permits', d)
    {
      if d != c {
        assert TokenOk(catalogue, inbox, effects, d);
        assert Holds(inbox, d, clock) && Covered(inbox, permits, d);
      }
    }
  }

  /**
   * A renewal leaves every running claim on its slot, unless it brings one back whose slot has been given
   * away meanwhile.
   */
  lemma RenewKeepsPermits(
    inbox: Inbox, permits: Permits, issued: set<Claim>, sellerPermits: nat, clock: int, now: int, later: int, c: Claim,
    leaseMs: int)
    requires DistinctTokens(issued) && PermitsOk(inbox, permits, issued, sellerPermits, clock)
    requires c in issued && clock <= later && now <= later
    requires Holds(inbox, c, now) && !Holds(inbox, c, clock) && later <= now + leaseMs ==> HoldsPermit(permits, c)
    ensures PermitsOk(RenewedInbox(inbox, c, now, leaseMs), RenewedPermits(inbox, permits, c, now, later, leaseMs),
          issued, sellerPermits, later)
  {
    if Holds(inbox, c, now) {
      assert Holds(inbox, c, clock) ==> Covered(inbox, permits, c);
      var inbox', permits' :=
        RenewedInbox(inbox, c, now, leaseMs), RenewedPermits(inbox, permits, c, now, later, leaseMs);
      forall d | d in issued && Holds(inbox', d, later)
        ensures Covered(inbox', permits', d)
      {
        if d.eventId == c.eventId {
          assert d == c;
        } else {
          assert Holds(inbox, d, clock) && Covered(inbox, permits, d);
        }
      }
    } else {
      TimeKeepsPermits(inbox, permits, issued, sellerPermits, clock, later);
    }
  }

  // ---- counting rows

  /** Rewriting a row never adds a pending row unless it reopens a finished one. */
  lemma RowWriteKeepsCapacity(inbox: Inbox, pendingLimit: nat, retainedLimit: nat, id: EventId, row: Row)
    requires CapacityOk(inbox, pendingLimit, retainedLimit) && id in inbox
    requires (row.state == DONE || inbox[id].state != DONE)
    ensures CapacityOk(inbox[id := row], pendingLimit, retainedLimit)
  {
    SubsetIsSmaller(PendingIds(inbox[id := row]), PendingIds(inbox));
    assert inbox[id := row].Keys == inbox.Keys;
  }

  lemma PurgeKeepsCapacity(inbox: Inbox, pendingLimit: nat, retainedLimit: nat, ids: set<EventId>)
    requires CapacityOk(inbox, pendingLimit, retainedLimit)
    ensures CapacityOk(inbox - ids, pendingLimit, retainedLimit)
  {
    SubsetIsSmaller(PendingIds(inbox - ids), PendingIds(inbox));
    assert (inbox - ids).Keys == inbox.Keys - ids;
    SubsetIsSmaller((inbox - ids).Keys, inbox.Keys);
  }
}
