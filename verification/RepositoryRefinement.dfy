/** What the inbox repository's methods compute is what the steps of the delivery protocol do to the tables. */
module RepositoryRefinement {
  import opened Domain
  import opened InboxTables
  import opened PartnerDatabase
  import opened DeliveryProtocol
  import opened InboxStore
  import opened DeliveryInvariant
  import opened IntakeLemmas
  import opened ClaimedRuns
  import DeliveryTheorems
  import Listening

  // ---- intake

  /** A poll brings at most the records between the cursors of its instance and their new positions. */
  lemma PolledAreKnown(cfg: Config, s: World, instance: InstanceId, upto: map<int, nat>, records: seq<Record>)
    requires cfg.Valid() && IsPoll(cfg, s.positions, instance, upto, records)
    ensures Listening.ValidPrefix(records) == |records|
  {
    forall i | 0 <= i < |records|
      ensures records[i].event.Valid()
    {
      assert IsPolled(cfg, s.positions, instance, upto, records[i]);
      assert Known(cfg.catalogue, cfg.topic[records[i].partition][records[i].offset]);
    }
  }

  lemma AckStep(cfg: Config, s: World, ack: Ack)
    requires ack in s.acks
    ensures CanStep(cfg, s, Acknowledge(ack))
    ensures After(cfg, s, Acknowledge(ack)) == s.(committed := s.committed + ack.upto, acks := s.acks - {ack})
  {
  }

  /** What one poll does through the listener: commit and acknowledge, or leave everything to be read again. */
  function PollSteps(
    cfg: Config, s: World, instance: InstanceId, upto: map<int, nat>, records: seq<Record>, receivedAt: int)
    : seq<Step>
  {
    var poll := Poll(instance, upto, records, receivedAt);
    if StoreAll(s.inbox, s.effects, records, cfg.pendingLimit, cfg.retainedLimit, receivedAt).None? then [poll]
    else [poll] + [Acknowledge(Ack(instance, upto))]
  }

  /**
   * The listener's method is a run of the protocol. Its poll never holds a malformed record; it ends
   * acknowledged with the new offsets committed and all its events stored or delivered, or with tables,
   * cursors and offsets as they were.
   */
  lemma PollIsARun(
    cfg: Config, s: World, instance: InstanceId, upto: map<int, nat>, records: seq<Record>, receivedAt: int)
    requires cfg.Valid() && cfg.inboxMode && IsPoll(cfg, s.positions, instance, upto, records)
    ensures Listening.ValidPrefix(records) == |records|
    ensures var run := PollSteps(cfg, s, instance, upto, records, receivedAt);
            var after := StoreAll(s.inbox, s.effects, records, cfg.pendingLimit, cfg.retainedLimit, receivedAt);
            && IsRun(cfg, s, run)
            && var t := End(cfg, s, run);
               if after.None? then t == s
               else
                 && TablesOf(t) == TablesOf(s).(inbox := after.value)
                 && t.positions == Advanced(s.positions, instance, upto) && t.committed == s.committed + upto
                 && (forall i :: 0 <= i < |records| ==> Stored(t.inbox, t.effects, records[i].event.eventId))
  {
    PolledAreKnown(cfg, s, instance, upto, records);
    StoreAllIsExact(s.inbox, s.effects, records, cfg.pendingLimit, cfg.retainedLimit, receivedAt);
    PollStep(cfg, s, Poll(instance, upto, records, receivedAt));
    hide StoreAll, IsPoll, IsFresh, Advanced, CanStep, After, NewIds, Stored, IsRun, End;
    var poll, ack := Poll(instance, upto, records, receivedAt), Ack(instance, upto);
    var polled := AfterPoll(cfg, s, instance, upto, records, receivedAt);
    OneStep(cfg, s, poll);
    if StoreAll(s.inbox, s.effects, records, cfg.pendingLimit, cfg.retainedLimit, receivedAt).Some? {
      AckStep(cfg, polled, ack);
      OneStep(cfg, polled, Acknowledge(ack));
      Prepend(cfg, s, poll, [Acknowledge(ack)]);
    }
  }

  // ---- claiming

  /** A claim step writes the tables as the repository does, and issues exactly the token it returns. */
  lemma ClaimIsTheStep(
    cfg: Config, s: World, w: nat, instance: InstanceId, e: Event, at: ClaimClock, appNow: int, cached: bool)
    ensures var after := AfterClaim(cfg, s, w, instance, e, at, appNow, cached);
            var (tables, attempt) :=
              Claiming(TablesOf(s), e, instance, cfg.limits, at, appNow, cached, RowLocked(s.workers, e.eventId));
            && TablesOf(after) == tables
            && after.issued == s.issued + (if attempt.claim.Some? then {attempt.claim.value} else {})
            && (attempt.result == Claimed <==> attempt.claim.Some?)
            && (attempt.result == Claimed ==> !RowLocked(s.workers, e.eventId))
            && after.workers
                  == if attempt.result == Claimed then s.workers[w := Worker(instance, e, attempt.claim, Ready)]
                                else s.workers
  {
    hide ClaimEnds, FirstFree, RowLocked, WithPermits;
    var permits := EnsuredPermits(cfg, s, e.sellerId, cached);
    ClaimedRowExists(s.inbox, permits, s.admissions, s.orders, e, cfg.limits, at, appNow,
      RowLocked(s.workers, e.eventId));
  }

  // ---- renewal

  function ReadBefore(clock: int, clocks: seq<RenewClock>, i: nat): int
    requires i < |clocks|
  {
    if i == 0 then clock else clocks[i - 1].permit
  }

  /** Statements start in the order of the clock, but a row's may have waited before it was executed. */
  predicate Ascend(clock: int, clocks: seq<RenewClock>) {
    forall i :: 0 <= i < |clocks| ==> Max(ReadBefore(clock, clocks, i), clocks[i].row) <= clocks[i].permit
  }

  function RenewSteps(claims: seq<Claim>, clocks: seq<RenewClock>): (run: seq<Step>)
    requires |clocks| == |claims|
    ensures |run| == |claims|
  {
    if claims == [] then []
    else [Renew(claims[0], clocks[0].row, clocks[0].permit)] + RenewSteps(claims[1..], clocks[1..])
  }

  /** Renewal read from its front, as a run goes. */
  lemma {:induction false} RenewedFromFront(t: Tables, claims: seq<Claim>, clocks: seq<RenewClock>, leaseMs: int)
    requires |clocks| == |claims| > 0
    ensures Renewed(t, claims, clocks, leaseMs) ==
      Renewed(Renewed(t, claims[..1], clocks[..1], leaseMs), claims[1..], clocks[1..], leaseMs)
  {
    var n := |claims| - 1;
    if n > 0 {
      RenewedFromFront(t, claims[..n], clocks[..n], leaseMs);
      assert claims[..n][..1] == claims[..1] && clocks[..n][..1] == clocks[..1];
      assert claims[..n][1..] == claims[1..][..n - 1] && clocks[..n][1..] == clocks[1..][..n - 1];
    } else {
      assert claims[..1] == claims && clocks[..1] == clocks;
    }
  }

  lemma OneRenewal(t: Tables, claims: seq<Claim>, clocks: seq<RenewClock>, leaseMs: int)
    requires |clocks| == |claims| > 0
    ensures var c, at := claims[0], clocks[0];
            Renewed(t, claims[..1], clocks[..1], leaseMs) ==
              t.(inbox := RenewedInbox(t.inbox, c, at.row, leaseMs),
                 permits := RenewedPermits(t.inbox, t.permits, c, at.row, at.permit, leaseMs))
  {
    assert claims[..1][..0] == [] && clocks[..1][..0] == [];
  }

  /** A whole renewal pass is a run of the protocol: one renewing step per claim. */
  lemma {:induction false} RenewIsARun(cfg: Config, s: World, claims: seq<Claim>, clocks: seq<RenewClock>)
    requires |clocks| == |claims| && Ascend(s.clock, clocks)
    requires forall i :: 0 <= i < |claims| ==> claims[i] in s.issued && !RowLocked(s.workers, claims[i].eventId)
    ensures IsRun(cfg, s, RenewSteps(claims, clocks))
    ensures TablesOf(End(cfg, s, RenewSteps(claims, clocks)))
          == Renewed(TablesOf(s), claims, clocks, cfg.limits.leaseMs)
    decreases |claims|
  {
    hide RowLocked, RenewedInbox, RenewedPermits;
    var run := RenewSteps(claims, clocks);
    if claims != [] {
      var c, at := claims[0], clocks[0];
      assert Max(ReadBefore(s.clock, clocks, 0), at.row) <= at.permit;
      assert CanStep(cfg, s, run[0]);
      var next := After(cfg, s, run[0]);
      assert run[1..] == RenewSteps(claims[1..], clocks[1..]);
      assert Ascend(next.clock, clocks[1..]) by {
        forall i | 0 <= i < |clocks| - 1
          ensures Max(ReadBefore(next.clock, clocks[1..], i), clocks[1..][i].row) <= clocks[1..][i].permit
        {
          assert Max(ReadBefore(s.clock, clocks, i + 1), clocks[i + 1].row) <= clocks[i + 1].permit;
        }
      }
      RenewIsARun(cfg, next, claims[1..], clocks[1..]);
      OneRenewal(TablesOf(s), claims, clocks, cfg.limits.leaseMs);
      RenewedFromFront(TablesOf(s), claims, clocks, cfg.limits.leaseMs);
    }
  }

  predicate DistinctEvents(claims: seq<Claim>) {
    forall i, j :: 0 <= i < j < |claims| ==> claims[i].eventId != claims[j].eventId
  }

  predicate Concerns(claims: seq<Claim>, id: EventId) {
    exists i :: 0 <= i < |claims| && claims[i].eventId == id
  }

  /** A pass leaves every row alone that none of its claims is for. */
  lemma {:induction false} RenewalIsLocal(
    t: Tables, claims: seq<Claim>, clocks: seq<RenewClock>, leaseMs: int, id: EventId)
    requires |clocks| == |claims| && !Concerns(claims, id)
    ensures id in Renewed(t, claims, clocks, leaseMs).inbox <==> id in t.inbox
    ensures id in t.inbox ==> Renewed(t, claims, clocks, leaseMs).inbox[id] == t.inbox[id]
  {
    if claims != [] {
      var n := |claims| - 1;
      assert claims[n].eventId != id;
      assert forall i :: 0 <= i < n ==> claims[..n][i] == claims[i];
      RenewalIsLocal(t, claims[..n], clocks[..n], leaseMs, id);
    }
  }

  lemma {:induction false} LostComeFromClaims(t: Tables, claims: seq<Claim>, clocks: seq<RenewClock>, leaseMs: int)
    requires |clocks| == |claims|
    ensures forall c :: c in Lost(t, claims, clocks, leaseMs) ==> Concerns(claims, c.eventId)
  {
    if claims != [] {
      var n := |claims| - 1;
      LostComeFromClaims(t, claims[..n], clocks[..n], leaseMs);
      forall c | c in Lost(t, claims, clocks, leaseMs)
        ensures Concerns(claims, c.eventId)
      {
        if c in Lost(t, claims[..n], clocks[..n], leaseMs) {
          var k :| 0 <= k < n && claims[..n][k].eventId == c.eventId;
          assert claims[k].eventId == c.eventId;
        } else {
          assert claims[n].eventId == c.eventId;
        }
      }
    }
  }

  /**
   * With one claim per event, a pass loses exactly the claims that did not hold when they were looked
   * at, and extends the lease of every other one by the full term.
   */
  lemma {:induction false} RenewalIsExact(t: Tables, claims: seq<Claim>, clocks: seq<RenewClock>, leaseMs: int, i: nat)
    requires |clocks| == |claims| && DistinctEvents(claims) && i < |claims|
    ensures var c, after := claims[i], Renewed(t, claims, clocks, leaseMs).inbox;
            && (c in Lost(t, claims, clocks, leaseMs) <==> !Holds(t.inbox, c, clocks[i].row))
            && (Holds(t.inbox, c, clocks[i].row) ==>
                  c.eventId in after && after[c.eventId] == t.inbox[c.eventId].(leaseUntil := clocks[i].row + leaseMs))
  {
    var n := |claims| - 1;
    assert DistinctEvents(claims[..n]) by {
      assert forall k :: 0 <= k < n ==> claims[..n][k] == claims[k];
    }
    LostComeFromClaims(t, claims[..n], clocks[..n], leaseMs);
    if i < n {
      RenewalIsExact(t, claims[..n], clocks[..n], leaseMs, i);
      assert claims[i].eventId != claims[n].eventId;
    } else {
      assert !Concerns(claims[..n], claims[n].eventId);
      RenewalIsLocal(t, claims[..n], clocks[..n], leaseMs, claims[n].eventId);
    }
  }

  /** A pass leaves the permit alone of every event that none of its claims is for. */
  lemma {:induction false} RenewalIsLocalToPermits(
    t: Tables, claims: seq<Claim>, clocks: seq<RenewClock>, leaseMs: int, slot: Slot, id: EventId)
    requires |clocks| == |claims| && !Concerns(claims, id)
    requires slot in t.permits && t.permits[slot].eventId == Some(id)
    ensures var after := Renewed(t, claims, clocks, leaseMs).permits;
            slot in after && after[slot] == t.permits[slot]
  {
    if claims != [] {
      var n := |claims| - 1;
      assert claims[n].eventId != id;
      assert forall i :: 0 <= i < n ==> claims[..n][i] == claims[i];
      RenewalIsLocalToPermits(t, claims[..n], clocks[..n], leaseMs, slot, id);
      hide Holds;
    }
  }

  /** The permit of a claim that could be extended follows it by the full term, counted from its own statement. */
  lemma {:induction false} PermitsFollow(t: Tables, claims: seq<Claim>, clocks: seq<RenewClock>, leaseMs: int, i: nat)
    requires |clocks| == |claims| && DistinctEvents(claims) && i < |claims|
    requires HoldsPermit(t.permits, claims[i])
    ensures var c, slot := claims[i], Slot(claims[i].sellerId, claims[i].slot);
            var after := Renewed(t, claims, clocks, leaseMs).permits;
            && slot in after
            && after[slot] ==
                 if Holds(t.inbox, c, clocks[i].row) then t.permits[slot].(leaseUntil := clocks[i].permit + leaseMs)
                 else t.permits[slot]
  {
    var n, slot := |claims| - 1, Slot(claims[i].sellerId, claims[i].slot);
    assert DistinctEvents(claims[..n]) by {
      assert forall k :: 0 <= k < n ==> claims[..n][k] == claims[k];
    }
    if i < n {
      PermitsFollow(t, claims[..n], clocks[..n], leaseMs, i);
      assert claims[i].eventId != claims[n].eventId;
      hide Holds;
    } else {
      assert !Concerns(claims[..n], claims[n].eventId);
      RenewalIsLocal(t, claims[..n], clocks[..n], leaseMs, claims[n].eventId);
      RenewalIsLocalToPermits(t, claims[..n], clocks[..n], leaseMs, slot, claims[n].eventId);
    }
  }

  // ---- purging

  lemma PurgeStep(cfg: Config, s: World, gone: set<EventId>, cutoff: int)
    requires MayPurge(s.inbox, gone, cutoff)
    ensures CanStep(cfg, s, PurgeDone(gone, cutoff))
    ensures After(cfg, s, PurgeDone(gone, cutoff)) == s.(inbox := s.inbox - gone)
  {
    hide MayPurge;
  }

  /**
   * What the repository deletes from a reachable state is a purge step, and loses nothing: every row
   * that leaves had been delivered and stays in the ledger.
   */
  lemma PurgeIsTheStep(cfg: Config, clock: int, run: seq<Step>, gone: set<EventId>, cutoff: int)
    requires cfg.Valid() && IsRun(cfg, Initial(clock), run)
    requires MayPurge(End(cfg, Initial(clock), run).inbox, gone, cutoff)
    ensures var s := End(cfg, Initial(clock), run);
            && CanStep(cfg, s, PurgeDone(gone, cutoff)) && gone <= s.effects.Keys
            && After(cfg, s, PurgeDone(gone, cutoff)) == s.(inbox := s.inbox - gone)
  {
    hide Inv, IsRun, End, MayPurge, CanStep, After;
    DeliveryTheorems.ReachableInv(cfg, clock, run);
    var s := End(cfg, Initial(clock), run);
    PurgeStep(cfg, s, gone, cutoff);
    DeliveryTheorems.PurgedIsDelivered(cfg, s, gone, cutoff);
  }
}
