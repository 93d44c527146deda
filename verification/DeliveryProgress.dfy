/**
 * The inbox never gets stuck: whatever happened before, letting leases and retry times pass makes
 * the next operation of some order claimable, and a claim can be carried through to its delivery.
 */
module DeliveryProgress {
  import opened Domain
  import opened InboxTables
  import opened SellerApi
  import opened DeliveryProtocol
  import opened DeliveryInvariant
  import opened TableLemmas
  import opened DeliverySteps
  import opened DeliveryTheorems
  import opened PartnerDatabase
  import ReadyRows
  import ClaimTheorems

  /** The operation of an order at one position is stored or delivered. */
  ghost predicate Present(s: World, key: OrderKey, n: int) {
    Delivered(s.effects, key, n)
      || exists id :: id in s.inbox && s.inbox[id].event.Key() == key && s.inbox[id].event.sequence == n
  }

  /** A stored event whose predecessors are all stored or delivered. */
  ghost predicate HasPredecessors(s: World, id: EventId) {
    id in s.inbox && forall n :: 1 <= n < s.inbox[id].event.sequence ==> Present(s, s.inbox[id].event.Key(), n)
  }

  /** By this time every lease has run out, every retry time has come and every admission has left the window. */
  ghost predicate Settled(cfg: Config, s: World, t: int) {
    && s.clock <= t
    && (forall id :: id in s.inbox ==> s.inbox[id].leaseUntil < t && s.inbox[id].nextAt <= t)
    && (forall slot :: slot in s.permits ==> s.permits[slot].leaseUntil < t)
    && (forall i :: 0 <= i < |s.admissions| ==> s.admissions[i].admittedAt <= t - cfg.limits.retryWindowMs)
  }

  datatype Time = Time(ms: int)

  lemma {:induction false} Bound(times: set<Time>) returns (bound: int)
    ensures forall t :: t in times ==> t.ms < bound
    decreases |times|
  {
    if times == {} {
      bound := 0;
    } else {
      var t :| t in times;
      bound := Bound(times - {t});
      bound := if t.ms < bound then bound else t.ms + 1;
    }
  }

  lemma AfterLeases(inbox: Inbox) returns (t: int)
    ensures forall id :: id in inbox ==> inbox[id].leaseUntil < t && inbox[id].nextAt < t
  {
    var leases := set id | id in inbox :: Time(inbox[id].leaseUntil);
    var retries := set id | id in inbox :: Time(inbox[id].nextAt);
    var a := Bound(leases);
    var b := Bound(retries);
    assert forall id :: id in inbox ==> Time(inbox[id].leaseUntil) in leases && Time(inbox[id].nextAt) in retries;
    t := Max(a, b);
  }

  lemma AfterPermits(permits: Permits) returns (t: int)
    ensures forall slot :: slot in permits ==> permits[slot].leaseUntil < t
  {
    var leases := set slot | slot in permits :: Time(permits[slot].leaseUntil);
    t := Bound(leases);
    assert forall slot :: slot in permits ==> Time(permits[slot].leaseUntil) in leases;
  }

  lemma {:induction false} AfterAdmissions(admissions: seq<Admission>) returns (t: int)
    ensures forall i :: 0 <= i < |admissions| ==> admissions[i].admittedAt < t
  {
    if admissions == [] {
      t := 0;
    } else {
      var n := |admissions| - 1;
      t := AfterAdmissions(admissions[..n]);
      t := Max(t, admissions[n].admittedAt + 1);
      assert forall i :: 0 <= i < n ==> admissions[..n][i] == admissions[i];
    }
  }

  /** Such a time always comes. */
  lemma SettlingTime(cfg: Config, s: World) returns (t: int)
    ensures Settled(cfg, s, t)
  {
    var a := AfterLeases(s.inbox);
    var b := AfterPermits(s.permits);
    var c := AfterAdmissions(s.admissions);
    t := Max(Max(a, b), Max(s.clock, c + cfg.limits.retryWindowMs));
  }

  lemma {:induction false} NothingRecent(admissions: seq<Admission>, sellerId: SellerId, since: int)
    requires forall i :: 0 <= i < |admissions| ==> admissions[i].admittedAt <= since
    ensures CountSince(admissions, sellerId, since) == 0
  {
    if admissions != [] {
      NothingRecent(admissions[..|admissions| - 1], sellerId, since);
    }
  }

  /** Among the stored operations of the order, the next one to deliver. */
  lemma NextIsStored(cfg: Config, s: World, id: EventId) returns (next: EventId)
    requires Inv(cfg, s) && HasPredecessors(s, id) && s.inbox[id].state != DONE
    ensures next in s.inbox && s.inbox[next].state != DONE && s.inbox[next].event.Key() == s.inbox[id].event.Key()
    ensures s.inbox[next].event.sequence == LastSequence(s.orders, s.inbox[next].event.Key()) + 1
    ensures Known(cfg.catalogue, s.inbox[next].event) && s.inbox[next].event.eventId == next && next !in s.effects
  {
    hide TokensOk, WorkersOk, LocksOk, OrderOk, CallsOk, SellerOk, GapOk, OffsetsOk, CapacityOk, BudgetOk;
    var key := s.inbox[id].event.Key();
    var n := LastSequence(s.orders, key) + 1;
    OpenRowsAreAhead(cfg.catalogue, s.inbox, s.effects, s.orders);
    LedgerIsExact(cfg.catalogue, s.effects, s.orders);
    if n == s.inbox[id].event.sequence {
      next := id;
    } else {
      assert LastSequence(s.orders, key) >= 0;
      assert Present(s, key, n) && !Delivered(s.effects, key, n);
      next :| next in s.inbox && s.inbox[next].event.Key() == key && s.inbox[next].event.sequence == n;
      assert RowOk(cfg.catalogue, s.effects, s.orders, next, s.inbox[next]);
    }
    assert RowOk(cfg.catalogue, s.effects, s.orders, next, s.inbox[next]);
  }

  /** A claim of the event succeeds. */
  predicate IsClaimed(cfg: Config, s: World, e: Event, at: ClaimClock, appNow: int) {
    var permits := EnsuredPermits(cfg, s, e.sellerId, false);
    ClaimEnds(s.inbox, permits, s.admissions, s.orders, e, cfg.limits, at, appNow, RowLocked(s.workers, e.eventId))
      == Claimed
  }

  /**
   * Once settled, the next operation of an order is claimed by whoever asks, exactly when no open
   * transaction has its row locked and the retry budget is not what keeps it waiting for ever.
   */
  lemma SettledRowIsClaimed(cfg: Config, s: World, e: Event, t: int, at: ClaimClock, appNow: int)
    requires Settled(cfg, s, t) && t <= at.permits && at.Ordered() && t <= appNow && cfg.limits.sellerPermits >= 1
    requires e.eventId in s.inbox && s.inbox[e.eventId].state != DONE && s.inbox[e.eventId].event == e
    requires e.sequence == LastSequence(s.orders, e.Key()) + 1
    ensures IsClaimed(cfg, s, e, at, appNow) <==>
      !RowLocked(s.workers, e.eventId) && (s.inbox[e.eventId].attempts == 0 || cfg.limits.retryBudget >= 1)
  {
    hide RowLocked;
    var permits := EnsuredPermits(cfg, s, e.sellerId, false);
    assert IsFree(permits, Slot(e.sellerId, 1), at.permits);
    NothingRecent(s.admissions, e.sellerId, at.count - cfg.limits.retryWindowMs);
  }

  /** If another transaction has the row locked, its end unlocks it. */
  lemma Unlock(cfg: Config, s: World, id: EventId) returns (run: seq<Step>)
    requires Inv(cfg, s)
    ensures IsRun(cfg, s, run) && Inv(cfg, End(cfg, s, run)) && !RowLocked(End(cfg, s, run).workers, id)
    ensures End(cfg, s, run) == s.(workers := End(cfg, s, run).workers)
    ensures !RowLocked(s.workers, id) ==> run == []
    ensures forall i :: 0 <= i < |run| ==> run[i].Abandon?
  {
    hide Inv;
    if RowLocked(s.workers, id) {
      var w :| w in s.workers && s.workers[w].Locks() && s.workers[w].event.eventId == id;
      var step := Abandon(w);
      OnlyLock(cfg, s, w);
      StepKeepsInv(cfg, s, step);
      run := [step];
      assert run[1..] == [];
    } else {
      run := [];
    }
  }

 lemma RowsAreCatalogued(cfg: Config, s: World)
    requires Inv(cfg, s)
    ensures forall id :: id in s.inbox ==> id in cfg.catalogue && s.inbox[id].event == cfg.catalogue[id]
    ensures forall id :: id in s.effects ==> id in cfg.catalogue && s.effects[id] == cfg.catalogue[id]
  {
    hide TokensOk, WorkersOk, LocksOk, OrderOk, CallsOk, SellerOk, GapOk, OffsetsOk, CapacityOk, BudgetOk,
      WellNumbered;
    forall id | id in s.inbox
      ensures id in cfg.catalogue && s.inbox[id].event == cfg.catalogue[id]
    {
      assert RowOk(cfg.catalogue, s.effects, s.orders, id, s.inbox[id]);
    }
  }

  /** From this time on, whoever asks for the row gets it, unless a retry budget of zero forbids its retries. */
  ghost predicate ClaimableFrom(cfg: Config, s: World, e: Event, t: int) {
    && e.eventId in s.inbox && s.inbox[e.eventId].event == e && s.inbox[e.eventId].state != DONE
    && forall at: ClaimClock, appNow :: t <= at.permits && at.Ordered() && t <= appNow ==>
         (IsClaimed(cfg, s, e, at, appNow) <==> s.inbox[e.eventId].attempts == 0 || cfg.limits.retryBudget >= 1)
  }

  // ---- the query offers it

  /** The row is the next one of its order to be delivered. */
  predicate IsNextRow(s: World, id: EventId) {
    && id in s.inbox && s.inbox[id].state != DONE
    && s.inbox[id].event.sequence == LastSequence(s.orders, s.inbox[id].event.Key()) + 1
  }

  /** A query of the dispatcher with these limits, at a reading of both clocks from this time on. */
  predicate IsQueryFrom(cfg: Config, q: ReadyRows.Query, t: int) {
    q.sellerPermits == cfg.limits.sellerPermits && t <= q.now && t <= q.appNow
  }

  /** Once settled, the query may list every next row, of every seller that is not skipped. */
  lemma SettledRowIsCandidate(cfg: Config, s: World, t: int, q: ReadyRows.Query, id: EventId)
    requires Settled(cfg, s, t) && IsQueryFrom(cfg, q, t) && cfg.limits.sellerPermits >= 1
    requires IsNextRow(s, id) && s.inbox[id].event.sellerId !in q.skip
    ensures s.inbox[id] in ReadyRows.Candidates(TablesOf(s), q)
  {
    var seller := s.inbox[id].event.sellerId;
    assert ReadyRows.HeldSlots(s.permits, seller, q.now) == {};
    assert IsReady(s.inbox, s.orders, id, q.appNow, q.now);
  }

  lemma CandidateIsNextRow(s: World, q: ReadyRows.Query, row: Row)
    requires row in ReadyRows.Candidates(TablesOf(s), q)
    ensures exists id :: IsNextRow(s, id) && s.inbox[id] == row
  {
    hide ReadyRows.IsFull, LastSequence;
    var id :| id in s.inbox && s.inbox[id] == row && IsReady(s.inbox, s.orders, id, q.appNow, q.now);
    assert IsNextRow(s, id);
  }

  /** Every answer with room for the eligible sellers lists a row of the event's seller, none later than its own. */
  ghost predicate IsOffered(cfg: Config, s: World, e: Event, q: ReadyRows.Query) {
    forall rows: seq<Row>, sellers: seq<SellerId> ::
      && ReadyRows.Answers(TablesOf(s), q, rows) && e.sellerId !in q.skip
      && ReadyRows.AreSellersOf(sellers, ReadyRows.Candidates(TablesOf(s), q))
      && |sellers| * q.sellerPermits <= q.limit
      ==>
        exists first :: first in rows && first.event.sellerId == e.sellerId
          && e.eventId in s.inbox && ReadyRows.NotLater(first, s.inbox[e.eventId])
  }

  lemma SettledRowIsOffered(cfg: Config, s: World, t: int, q: ReadyRows.Query, id: EventId)
    requires Settled(cfg, s, t) && IsQueryFrom(cfg, q, t) && cfg.limits.sellerPermits >= 1
    requires IsNextRow(s, id) && s.inbox[id].event.eventId == id
    ensures IsOffered(cfg, s, s.inbox[id].event, q)
  {
    hide Settled, ReadyRows.Answers, ReadyRows.AreSellersOf, ReadyRows.Candidates, ReadyRows.NotLater;
    var e, candidates := s.inbox[id].event, ReadyRows.Candidates(TablesOf(s), q);
    forall rows: seq<Row>, sellers: seq<SellerId> |
      && ReadyRows.Answers(TablesOf(s), q, rows) && e.sellerId !in q.skip
      && ReadyRows.AreSellersOf(sellers, candidates) && |sellers| * q.sellerPermits <= q.limit
      ensures exists first :: first in rows && first.event.sellerId == e.sellerId
                && e.eventId in s.inbox && ReadyRows.NotLater(first, s.inbox[e.eventId])
    {
      SettledRowIsCandidate(cfg, s, t, q, id);
      ReadyRows.EverySellerIsListed(TablesOf(s), q, rows, sellers, s.inbox[id]);
      var first :| first in rows && first.event.sellerId == e.sellerId
        && forall c :: c in ReadyRows.OfSeller(candidates, e.sellerId) ==> ReadyRows.NotLater(first, c);
      assert s.inbox[id] in ReadyRows.OfSeller(candidates, e.sellerId);
    }
  }

  ghost predicate OfferedFrom(cfg: Config, s: World, e: Event, t: int) {
    forall q :: IsQueryFrom(cfg, q, t) ==> IsOffered(cfg, s, e, q)
  }

  lemma SettledIsOpen(cfg: Config, s: World, next: EventId, t: int)
    requires Settled(cfg, s, t) && cfg.limits.sellerPermits >= 1 && IsNextRow(s, next)
    requires s.inbox[next].event.eventId == next && !RowLocked(s.workers, next)
    ensures ClaimableFrom(cfg, s, s.inbox[next].event, t) && OfferedFrom(cfg, s, s.inbox[next].event, t)
  {
    hide IsClaimed, IsOffered, Settled, RowLocked;
    var e := s.inbox[next].event;
    forall at: ClaimClock, appNow | t <= at.permits && at.Ordered() && t <= appNow
      ensures IsClaimed(cfg, s, e, at, appNow) <==> s.inbox[e.eventId].attempts == 0 || cfg.limits.retryBudget >= 1
    {
      SettledRowIsClaimed(cfg, s, e, t, at, appNow);
    }
    forall q | IsQueryFrom(cfg, q, t)
      ensures IsOffered(cfg, s, e, q)
    {
      SettledRowIsOffered(cfg, s, t, q, next);
    }
  }

  /**
   * From any reachable state with a stored, undelivered event whose predecessors are stored or
   * delivered: once the transaction that may have the row locked has ended, which changes nothing but
   * its worker, some time comes after which the next operation of that order is claimed by whoever asks, and
   * every list of ready rows that has room for the sellers shows its seller.
   */
  lemma InboxNeverSticks(cfg: Config, clock: int, run: seq<Step>, id: EventId)
    returns (unlock: seq<Step>, e: Event, t: int)
    requires cfg.Valid() && IsRun(cfg, Initial(clock), run) && cfg.limits.sellerPermits >= 1
    requires var s := End(cfg, Initial(clock), run); HasPredecessors(s, id) && s.inbox[id].state != DONE
    ensures IsRun(cfg, End(cfg, Initial(clock), run), unlock)
    ensures var s := End(cfg, Initial(clock), run);
            var free := End(cfg, s, unlock);
            && free == s.(workers := free.workers) && (!RowLocked(s.workers, e.eventId) ==> unlock == [])
            && e.Key() == s.inbox[id].event.Key() && ClaimableFrom(cfg, free, e, t) && OfferedFrom(cfg, free, e, t)
  {
    hide Inv, IsRun, End, ClaimableFrom, OfferedFrom, Settled, HasPredecessors, RowLocked, Initial, LastSequence, Known;
    ReachableInv(cfg, clock, run);
    var s := End(cfg, Initial(clock), run);
    var next := NextIsStored(cfg, s, id);
    e := s.inbox[next].event;
    unlock := Unlock(cfg, s, next);
    var free := End(cfg, s, unlock);
    t := SettlingTime(cfg, free);
    SettledIsOpen(cfg, free, next, t);
  }

  /**
   * In every reachable state: what the query may list are exactly the rows that a claim at the same readings
   * would get, or would get with a larger retry budget, if nobody has them locked.
   */
  lemma ListedExactlyWhenClaimable(
    cfg: Config, clock: int, run: seq<Step>, q: ReadyRows.Query, id: EventId, at: ClaimClock)
    requires cfg.Valid() && IsRun(cfg, Initial(clock), run) && q.sellerPermits == cfg.limits.sellerPermits >= 1
    requires id in End(cfg, Initial(clock), run).inbox && at.permits == at.row == q.now
    ensures var s := End(cfg, Initial(clock), run);
            var e := s.inbox[id].event;
            s.inbox[id] in ReadyRows.Candidates(TablesOf(s), q) <==>
              && e.sellerId !in q.skip
              && ClaimEnds(s.inbox, EnsuredPermits(cfg, s, e.sellerId, false), s.admissions, s.orders, e, cfg.limits,
                    at,
                   q.appNow, false) in {Claimed, RetryBudget}
  {
    ReachableInv(cfg, clock, run);
    ClaimTheorems.RunKeepsSlots(cfg, Initial(clock), run);
    var s := End(cfg, Initial(clock), run);
    RowsAreCatalogued(cfg, s);
    hide Inv, IsRun, End, ReadyRows.Candidates, ClaimEnds, WithPermits;
    assert ReadyRows.AreNumbered(s.permits, s.inbox[id].event.sellerId, cfg.limits.sellerPermits);
    ReadyRows.CandidateExactlyWhenClaimable(TablesOf(s), q, id, cfg.limits, at);
  }

  // ---- what the next proofs need of a state

  lemma RequestIsCleared(cfg: Config, s: World, r: nat)
    requires Inv(cfg, s) && r in s.requests
    ensures Known(cfg.catalogue, s.requests[r].event)
    ensures s.requests[r].event.sequence <= LastSequence(s.orders, s.requests[r].event.Key()) + 1
    ensures WellNumbered(cfg.catalogue) && SellerOk(cfg.catalogue, s.seller) && GapOk(s.orders, s.seller.orders)
    ensures s.requests[r].stage.Counted? ==> s.requests[r].stage.attempt < |s.seller.attempts|
  {
    hide LedgerOk, InboxOk, TokensOk, WorkersOk, LocksOk, SellerOk, GapOk, OffsetsOk, CapacityOk, BudgetOk,
      WellNumbered;
  }

  /** A working seller: no injected failure, no dropped response, the idempotency key honoured. */
  const FAIR := Policy(0, true, false)

  /** Some number is not in use yet. */
  lemma Fresh(used: set<nat>) returns (n: nat)
    ensures n !in used
  {
    n := 0;
    var seen: set<nat> := {};
    while n in used
      invariant forall k :: k in seen ==> k < n
      invariant seen <= used && |seen| == n
      decreases |used| - n
    {
      SubsetIsSmaller(seen + {n}, used);
      seen := seen + {n};
      n := n + 1;
    }
  }

  predicate Workable(limits: Limits) {
    limits.sellerPermits >= 1 && limits.retryBudget >= 1 && limits.leaseMs >= 0
  }

  /** The row as it was, as far as its place in any list goes; it is still open. */
  predicate SameArrival(before: Row, after: Row) {
    && after.event == before.event && after.receivedAt == before.receivedAt && after.offset == before.offset
    && before.state != DONE && after.state != DONE
  }

  /** Of the inbox, at most the attempts and leases of one open row have changed, and of the ledger nothing. */
  ghost predicate OnlyTouched(base: World, s: World, id: EventId) {
    && id in base.inbox && id in s.inbox && s.inbox == base.inbox[id := s.inbox[id]]
    && SameArrival(base.inbox[id], s.inbox[id]) && PendingIds(s.inbox) == PendingIds(base.inbox)
    && s.effects == base.effects && s.orders == base.orders
  }

  /** The worker holds the next operation of its order and has come this far with it. */
  ghost predicate Carrying(cfg: Config, base: World, s: World, w: nat, e: Event, c: Claim, phase: Phase) {
    && Inv(cfg, s) && cfg.inboxMode && InPhase(s, w, phase)
    && s.workers[w].event == e && s.workers[w].claim == Some(c) && c.eventId == e.eventId
    && Holds(s.inbox, c, s.clock) && e.eventId !in s.effects && e.sequence == LastSequence(s.orders, e.Key()) + 1
    && OnlyTouched(base, s, e.eventId) && !RowLocked(s.workers - {w}, e.eventId)
  }

  lemma GrantTouches(
    limits: Limits, s: World, w: nat, e: Event, c: Claim, permits: Permits, at: ClaimClock)
    requires e.eventId in s.inbox && s.inbox[e.eventId].state != DONE
    ensures OnlyTouched(s, Granted(limits, s, w, e, c, permits, at), e.eventId)
  {
  }

  /** From the given time on, an open next row that nobody has locked is claimed. */
  lemma ClaimToCarry(
    cfg: Config, s: World, w: nat, instance: InstanceId, e: Event, t: int) returns (step: Step, c: Claim)
    requires Inv(cfg, s) && cfg.inboxMode && Workable(cfg.limits) && w !in s.workers && Known(cfg.catalogue, e)
    requires !RowLocked(s.workers, e.eventId)
    requires Settled(cfg, s, t) && e.eventId in s.inbox && s.inbox[e.eventId].event == e
    requires s.inbox[e.eventId].state != DONE && e.eventId !in s.effects
    requires e.sequence == LastSequence(s.orders, e.Key()) + 1
    ensures CanStep(cfg, s, step) && step == TryClaim(w, instance, e, ClaimClock(t, t, t, t, t, t), t, false)
    ensures var u := After(cfg, s, step);
            Carrying(cfg, s, u, w, e, c, Ready) && u.seller == s.seller && u.requests == s.requests
  {
    hide Inv, CanStep, After, CountSince, FirstFree, Known, ClaimEnds, EnsuredPermits, LastSequence;
    var at := ClaimClock(t, t, t, t, t, t);
    step := TryClaim(w, instance, e, at, t, false);
    SettledRowIsClaimed(cfg, s, e, t, at, t);
    ClaimStep(cfg, s, step);
    hide Settled, OnlyTouched;
    StepKeepsInv(cfg, s, step);
    var permits := EnsuredPermits(cfg, s, e.sellerId, false);
    GrantStep(cfg, s, step, permits);
    c := ClaimToken(s.inbox, permits, e, instance, cfg.limits, at);
    GrantTouches(cfg.limits, s, w, e, c, permits, at);
    var after := After(cfg, s, step);
    assert after.workers - {w} == s.workers;
  }

  lemma RunKeepsPresent(cfg: Config, s: World, run: seq<Step>, key: OrderKey, n: int)
    requires Inv(cfg, s) && IsRun(cfg, s, run) && Present(s, key, n)
    ensures Present(End(cfg, s, run), key, n)
  {
    hide Inv, IsRun, End;
    var t := End(cfg, s, run);
    RunKeepsInv(cfg, s, run);
    RowsAreCatalogued(cfg, s);
    RowsAreCatalogued(cfg, t);
    if Delivered(s.effects, key, n) {
      var id :| id in s.effects && s.effects[id].Key() == key && s.effects[id].sequence == n;
      RunProgresses(cfg, s, run, id);
    } else {
      var id :| id in s.inbox && s.inbox[id].event.Key() == key && s.inbox[id].event.sequence == n;
      RunProgresses(cfg, s, run, id);
    }
  }

  /** A row with its predecessors keeps them until it is delivered. */
  lemma PredecessorsStay(cfg: Config, s: World, run: seq<Step>, id: EventId)
    requires Inv(cfg, s) && IsRun(cfg, s, run) && HasPredecessors(s, id)
    ensures var t := End(cfg, s, run);
          id in t.effects || (HasPredecessors(t, id) && t.inbox[id].event == s.inbox[id].event)
  {
    hide Inv, IsRun, End, Present;
    var t := End(cfg, s, run);
    RunKeepsInv(cfg, s, run);
    RowsAreCatalogued(cfg, s);
    RowsAreCatalogued(cfg, t);
    RunProgresses(cfg, s, run, id);
    if id in t.inbox {
      forall n | 1 <= n < t.inbox[id].event.sequence
        ensures Present(t, t.inbox[id].event.Key(), n)
      {
        RunKeepsPresent(cfg, s, run, s.inbox[id].event.Key(), n);
      }
    }
  }

  lemma OneFewerPending(inbox: Inbox, id: EventId, row: Row)
    requires id in inbox && inbox[id].state != DONE && row.state == DONE
    ensures id in PendingIds(inbox) && PendingIds(inbox[id := row]) == PendingIds(inbox) - {id}
    ensures |PendingIds(inbox[id := row])| == |PendingIds(inbox)| - 1
  {
  }

  lemma CommitClosesRow(s: World, w: nat, doneAt: int)
    requires w in s.workers && s.workers[w].claim.Some? && !Collides(s.effects, s.workers[w].event)
    requires var c := s.workers[w].claim.value;
             c.eventId == s.workers[w].event.eventId && Names(s.inbox, c) && s.inbox[c.eventId].state == CLAIMED
    ensures var t, id := AfterCommit(s, w, doneAt), s.workers[w].event.eventId;
            && id in PendingIds(s.inbox) && PendingIds(t.inbox) == PendingIds(s.inbox) - {id}
            && |PendingIds(t.inbox)| == |PendingIds(s.inbox)| - 1
            && t.effects == s.effects[id := s.workers[w].event]
  {
    hide Collides, ReleasedBy;
    var t, id := AfterCommit(s, w, doneAt), s.workers[w].event.eventId;
    assert t.inbox == s.inbox[id := t.inbox[id]] && t.inbox[id].state == DONE;
    OneFewerPending(s.inbox, id, t.inbox[id]);
  }

  lemma ClaimedIsOpen(cfg: Config, s: World, c: Claim)
    requires Inv(cfg, s) && Names(s.inbox, c)
    ensures s.inbox[c.eventId].state == CLAIMED && c.eventId !in s.effects
  {
    hide LedgerOk, TokensOk, WorkersOk, LocksOk, OrderOk, CallsOk, SellerOk, GapOk, OffsetsOk, CapacityOk, BudgetOk,
      WellNumbered;
    ClaimedIsUndelivered(cfg.catalogue, s.inbox, s.effects, s.orders, c);
  }

  /** In every run, recording a delivery closes exactly its own row. */
  lemma RecordingClosesOneRow(cfg: Config, clock: int, run: seq<Step>, w: nat, doneAt: int)
    requires cfg.Valid() && IsRun(cfg, Initial(clock), run) && cfg.inboxMode
    requires var s := End(cfg, Initial(clock), run); InPhase(s, w, Writing)
    ensures var s := End(cfg, Initial(clock), run);
            var t, e := AfterCommit(s, w, doneAt), s.workers[w].event;
            && e.eventId in PendingIds(s.inbox) && PendingIds(t.inbox) == PendingIds(s.inbox) - {e.eventId}
            && |PendingIds(t.inbox)| == |PendingIds(s.inbox)| - 1
            && t.effects == s.effects[e.eventId := e] && e.eventId !in s.effects
  {
    ReachableInv(cfg, clock, run);
    var s := End(cfg, Initial(clock), run);
    hide Inv, IsRun, End, Collides, AfterCommit, PendingIds;
    WorkerOwnsItsClaim(cfg, s, w);
    LockedIsClaimed(cfg, s, w);
    NotCollidingIsNext(cfg, s, s.workers[w].event);
    ClaimedIsOpen(cfg, s, s.workers[w].claim.value);
    CommitClosesRow(s, w, doneAt);
  }
}
