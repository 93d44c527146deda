/**
 * What the answer to a claim tells of the tables it found, and what no run lets a claim do: take a row from a
 * claim that is alive, or take a row back before its retry time.
 */
module ClaimTheorems {
  import opened Domain
  import opened InboxTables
  import opened DeliveryProtocol
  import opened DeliveryInvariant
  import opened IntakeLemmas
  import opened DeliverySteps
  import opened DeliveryTheorems

  // ---- one claim

  /** Every slot of the seller that exists is held under a lease that reaches the reading. */
  ghost predicate AllHeld(permits: Permits, sellerId: SellerId, count: nat, now: int) {
    forall n :: 1 <= n <= count && Slot(sellerId, n) in permits ==>
      var permit := permits[Slot(sellerId, n)]; permit.owner.Some? && permit.leaseUntil >= now
  }

  /** The row waits for nobody: its retry time has come, or the lease of its claim has run out. */
  predicate IsDue(row: Row, appNow: int, now: int) {
    match row.state
    case PENDING => row.nextAt <= appNow
    case CLAIMED => row.leaseUntil < now
    case DONE => false
  }

  lemma FreeUnlessHeld(permits: Permits, sellerId: SellerId, count: nat, now: int)
    ensures FirstFree(permits, sellerId, 1, count, now) == None <==> AllHeld(permits, sellerId, count, now)
  {
    var free := FirstFree(permits, sellerId, 1, count, now);
    if free == None {
      forall n | 1 <= n <= count && Slot(sellerId, n) in permits
        ensures permits[Slot(sellerId, n)].owner.Some? && permits[Slot(sellerId, n)].leaseUntil >= now
      {
        assert !IsFree(permits, Slot(sellerId, n), now);
      }
    } else {
      assert IsFree(permits, Slot(sellerId, free.value), now);
      assert 1 <= free.value <= count;
    }
  }

  /** Each of the four answers says exactly what the claim found. */
  lemma AnswersTell(
    inbox: Inbox, permits: Permits, admissions: seq<Admission>, orders: Orders, e: Event, limits: Limits,
    at: ClaimClock, appNow: int, locked: bool)
    ensures var answer := ClaimEnds(inbox, permits, admissions, orders, e, limits, at, appNow, locked);
            var held := AllHeld(permits, e.sellerId, limits.sellerPermits, at.permits);
            var open := !locked && e.eventId in inbox && IsDue(inbox[e.eventId], appNow, at.row)
                        && inbox[e.eventId].event.sequence == LastSequence(orders, inbox[e.eventId].event.Key()) + 1;
            var spent := open && inbox[e.eventId].attempts > 0
                         && CountSince(admissions, e.sellerId, at.count - limits.retryWindowMs) >= limits.retryBudget;
            && (answer == SellerFull <==> held)
            && (answer == Taken <==> !held && !open)
            && (answer == RetryBudget <==> !held && spent)
            && (answer == Claimed <==> !held && open && !spent)
  {
    FreeUnlessHeld(permits, e.sellerId, limits.sellerPermits, at.permits);
    hide FirstFree, AllHeld, CountSince, LastSequence;
  }

  // ---- over runs

  /** The step hands out a token. */
  ghost predicate Grants(cfg: Config, s: World, step: Step)
    requires CanStep(cfg, s, step)
  {
    After(cfg, s, step).issued != s.issued
  }

  lemma GrantedIsClaimed(cfg: Config, s: World, step: Step)
    requires CanStep(cfg, s, step) && step.TryClaim? && Grants(cfg, s, step)
    ensures ClaimEnds(s.inbox, EnsuredPermits(cfg, s, step.event.sellerId, step.cached), s.admissions, s.orders,
              step.event, cfg.limits, step.at, step.appNow, RowLocked(s.workers, step.event.eventId)) == Claimed
  {
    hide CanStep, After, ClaimEnds, EnsuredPermits, RowLocked;
    ClaimStep(cfg, s, step);
  }

  lemma ClaimedIsDue(
    inbox: Inbox, permits: Permits, admissions: seq<Admission>, orders: Orders, e: Event, limits: Limits,
    at: ClaimClock, appNow: int, locked: bool)
    requires ClaimEnds(inbox, permits, admissions, orders, e, limits, at, appNow, locked) == Claimed
    ensures !locked && e.eventId in inbox && IsDue(inbox[e.eventId], appNow, at.row)
  {
    hide FirstFree, CountSince, LastSequence;
  }

  /**
   * In no run does a claim take a row that another transaction has locked, that waits for its retry time, or
   * whose token is alive at the reading of the claim's row statement.
   */
  lemma LiveClaimIsNotTaken(cfg: Config, clock: int, run: seq<Step>, step: Step, c: Claim)
    requires IsRun(cfg, Initial(clock), run) && CanStep(cfg, End(cfg, Initial(clock), run), step) && step.TryClaim?
    requires Grants(cfg, End(cfg, Initial(clock), run), step) && c.eventId == step.event.eventId
    ensures var s := End(cfg, Initial(clock), run);
            && c.eventId in s.inbox && !RowLocked(s.workers, c.eventId)
            && (s.inbox[c.eventId].state == PENDING ==> s.inbox[c.eventId].nextAt <= step.appNow)
            && !Holds(s.inbox, c, step.at.row)
  {
    var s := End(cfg, Initial(clock), run);
    hide IsRun, End, CanStep, Grants, Initial, RowLocked, ClaimEnds;
    GrantedIsClaimed(cfg, s, step);
    ClaimedIsDue(s.inbox, EnsuredPermits(cfg, s, step.event.sellerId, step.cached), s.admissions, s.orders, step.event,
      cfg.limits, step.at, step.appNow, RowLocked(s.workers, step.event.eventId));
  }

  // ---- the retry time

  ghost predicate IsWaiting(s: World, id: EventId) {
    id in s.inbox && s.inbox[id].state == PENDING
  }

  lemma WaitingHasNoOwner(cfg: Config, s: World, id: EventId)
    requires Inv(cfg, s) && IsWaiting(s, id)
    ensures s.inbox[id].owner == None && forall c: Claim :: c.eventId == id ==> !Names(s.inbox, c)
  {
    hide LedgerOk, TokensOk, WorkersOk, LocksOk, OrderOk, CallsOk, SellerOk, GapOk, OffsetsOk, CapacityOk, BudgetOk,
      WellNumbered;
    assert RowOk(cfg.catalogue, s.effects, s.orders, id, s.inbox[id]);
  }

  lemma PollLeavesRow(cfg: Config, s: World, step: Step, id: EventId)
    requires CanStep(cfg, s, step) && step.Poll? && id in s.inbox
    ensures var t := After(cfg, s, step); id in t.inbox && t.inbox[id] == s.inbox[id]
  {
    hide CanStep, After, IsPoll, StoreAll, IsFresh, Advanced;
    PollStep(cfg, s, step);
    StoreAllIsExact(s.inbox, s.effects, step.records, cfg.pendingLimit, cfg.retainedLimit, step.receivedAt);
  }

  lemma GrantChangesOneRow(limits: Limits, s: World, w: nat, e: Event, c: Claim, permits: Permits, at: ClaimClock)
    requires e.eventId in s.inbox
    ensures var t := Granted(limits, s, w, e, c, permits, at);
            t.issued == s.issued + {c} && t.inbox == s.inbox[e.eventId := t.inbox[e.eventId]]
  {
  }

  lemma NewToken(cfg: Config, s: World, c: Claim)
    requires Inv(cfg, s) && c.eventId in s.inbox && c.generation > s.inbox[c.eventId].generation
    ensures c !in s.issued
  {
    hide Inv;
    if c in s.issued {
      IssuedToken(cfg, s, c);
    }
  }

  lemma TokenIsNext(inbox: Inbox, permits: Permits, e: Event, owner: InstanceId, limits: Limits, at: ClaimClock)
    requires e.eventId in inbox && FirstFree(permits, e.sellerId, 1, limits.sellerPermits, at.permits).Some?
    ensures var c := ClaimToken(inbox, permits, e, owner, limits, at);
            c.eventId == e.eventId && c.generation == inbox[e.eventId].generation + 1
  {
  }

  lemma ClaimLeavesRow(cfg: Config, s: World, step: Step, id: EventId)
    requires Inv(cfg, s) && CanStep(cfg, s, step) && step.TryClaim? && id in s.inbox
    requires step.event.eventId == id ==> !Grants(cfg, s, step)
    ensures var t := After(cfg, s, step); id in t.inbox && t.inbox[id] == s.inbox[id]
  {
    hide Inv, CanStep, After, Granted, ClaimEnds, ClaimToken, EnsuredPermits, RowLocked, FirstFree, Known;
    var permits := EnsuredPermits(cfg, s, step.event.sellerId, step.cached);
    ClaimStep(cfg, s, step);
    if ClaimEnds(s.inbox, permits, s.admissions, s.orders, step.event, cfg.limits, step.at, step.appNow,
      RowLocked(s.workers, step.event.eventId)) == Claimed {
      GrantStep(cfg, s, step, permits);
      var c := ClaimToken(s.inbox, permits, step.event, step.instance, cfg.limits, step.at);
      TokenIsNext(s.inbox, permits, step.event, step.instance, cfg.limits, step.at);
      NewToken(cfg, s, c);
      GrantChangesOneRow(cfg.limits, s, step.w, step.event, c, permits, step.at);
    }
  }

  /** A token that names no row changes none. */
  lemma WritesLeave(inbox: Inbox, claim: Option<Claim>, doneAt: int, now: int, nextAt: int, leaseMs: int, id: EventId)
    requires id in inbox && (claim.Some? && claim.value.eventId == id ==> !Names(inbox, claim.value))
    ensures id in CompletedBy(inbox, claim, doneAt) && CompletedBy(inbox, claim, doneAt)[id] == inbox[id]
    ensures id in GivenBackBy(inbox, claim, now, nextAt) && GivenBackBy(inbox, claim, now, nextAt)[id] == inbox[id]
    ensures claim.Some? ==>
          var after := RenewedInbox(inbox, claim.value, now, leaseMs); id in after && after[id] == inbox[id]
  {
  }

  predicate WritesUnderClaim(step: Step) {
    step.FinishDuplicate? || step.ReadLedger? || step.Commit? || step.GiveBack?
  }

  lemma WorkerWrites(cfg: Config, s: World, step: Step)
    requires CanStep(cfg, s, step) && WritesUnderClaim(step)
    ensures step.w in s.workers
    ensures var after, claim := After(cfg, s, step).inbox, s.workers[step.w].claim;
            || after == s.inbox
            || (!step.GiveBack? && after == CompletedBy(s.inbox, claim, step.doneAt))
            || (step.GiveBack? && after == GivenBackBy(s.inbox, claim, step.now, step.nextAt))
  {
    hide CanStep, After, MayWriteRow, ReleasedBy, StillHolds, CompletedBy, GivenBackBy, LastSequence, Collides;
    if step.FinishDuplicate? {
      DuplicateStep(cfg, s, step);
    } else if step.ReadLedger? {
      ReadStep(cfg, s, step);
    } else if step.Commit? {
      CommitStep(cfg, s, step);
    } else {
      GiveBackStep(cfg, s, step);
    }
  }

  /** The worker carries the token that the row names. */
  predicate WritesUnder(s: World, w: nat, id: EventId) {
    && w in s.workers && s.workers[w].claim.Some? && s.workers[w].claim.value.eventId == id
    && Names(s.inbox, s.workers[w].claim.value)
  }

  /** The step may write the row: it claims it, it writes under the token that the row names, or it deletes it. */
  ghost predicate Touches(cfg: Config, s: World, step: Step, id: EventId)
    requires CanStep(cfg, s, step)
  {
    || (step.TryClaim? && step.event.eventId == id && Grants(cfg, s, step))
    || (WritesUnderClaim(step) && WritesUnder(s, step.w, id))
    || (step.Renew? && step.claim.eventId == id && Names(s.inbox, step.claim))
    || (step.PurgeDone? && id in step.ids)
  }

  lemma WorkerLeavesRow(cfg: Config, s: World, step: Step, id: EventId)
    requires CanStep(cfg, s, step) && id in s.inbox && WritesUnderClaim(step) && !WritesUnder(s, step.w, id)
    ensures var t := After(cfg, s, step); id in t.inbox && t.inbox[id] == s.inbox[id]
  {
    hide CanStep, After, CompletedBy, GivenBackBy, Names;
    WorkerWrites(cfg, s, step);
    var claim := s.workers[step.w].claim;
    if step.GiveBack? {
      WritesLeave(s.inbox, claim, 0, step.now, step.nextAt, 0, id);
    } else {
      WritesLeave(s.inbox, claim, step.doneAt, 0, 0, 0, id);
    }
  }

  lemma RenewalLeavesRow(cfg: Config, s: World, step: Step, id: EventId)
    requires CanStep(cfg, s, step) && step.Renew? && id in s.inbox
    requires step.claim.eventId == id ==> !Names(s.inbox, step.claim)
    ensures var t := After(cfg, s, step); id in t.inbox && t.inbox[id] == s.inbox[id]
  {
    hide CanStep, After, RowLocked, RenewedInbox, RenewedPermits, Names;
    RenewStep(cfg, s, step);
    WritesLeave(s.inbox, Some(step.claim), 0, step.now, 0, cfg.limits.leaseMs, id);
  }

  lemma PurgeLeavesRow(cfg: Config, s: World, step: Step, id: EventId)
    requires CanStep(cfg, s, step) && step.PurgeDone? && id in s.inbox && id !in step.ids
    ensures var t := After(cfg, s, step); id in t.inbox && t.inbox[id] == s.inbox[id]
  {
  }

  lemma UntouchedStays(cfg: Config, s: World, step: Step, id: EventId)
    requires Inv(cfg, s) && CanStep(cfg, s, step) && id in s.inbox && !Touches(cfg, s, step, id)
    ensures var t := After(cfg, s, step); id in t.inbox && t.inbox[id] == s.inbox[id]
  {
    hide Inv, CanStep, After, WritesUnder, Grants, Names;
    if step.Poll? {
      PollLeavesRow(cfg, s, step, id);
    } else if step.TryClaim? {
      ClaimLeavesRow(cfg, s, step, id);
    } else if WritesUnderClaim(step) {
      WorkerLeavesRow(cfg, s, step, id);
    } else if step.Renew? {
      RenewalLeavesRow(cfg, s, step, id);
    } else if step.PurgeDone? {
      PurgeLeavesRow(cfg, s, step, id);
    } else {
      OtherStepsKeepRows(cfg, s, step);
    }
  }

  lemma WaitingIsKept(cfg: Config, s: World, step: Step, id: EventId)
    requires CanStep(cfg, s, step) && step.PurgeDone? && IsWaiting(s, id)
    ensures id !in step.ids
  {
  }

  /** Nothing but a claim of its event touches a waiting row. */
  lemma StepLeavesRow(cfg: Config, s: World, step: Step, id: EventId)
    requires Inv(cfg, s) && CanStep(cfg, s, step) && IsWaiting(s, id)
    requires step.TryClaim? && step.event.eventId == id ==> !Grants(cfg, s, step)
    ensures var t := After(cfg, s, step); id in t.inbox && t.inbox[id] == s.inbox[id]
  {
    hide Inv, CanStep, After, Grants, Names;
    WaitingHasNoOwner(cfg, s, id);
    if step.PurgeDone? {
      WaitingIsKept(cfg, s, step, id);
    }
    UntouchedStays(cfg, s, step, id);
  }

  /** No claim of the event is granted in the run. */
  ghost predicate NeverGranted(cfg: Config, s: World, run: seq<Step>, id: EventId)
    requires IsRun(cfg, s, run)
    decreases |run|
  {
    run == [] || ((run[0].TryClaim? && run[0].event.eventId == id ==> !Grants(cfg, s, run[0]))
                  && NeverGranted(cfg, After(cfg, s, run[0]), run[1..], id))
  }

  lemma {:induction false} RunLeavesRow(cfg: Config, s: World, run: seq<Step>, id: EventId)
    requires Inv(cfg, s) && IsRun(cfg, s, run) && IsWaiting(s, id) && NeverGranted(cfg, s, run, id)
    ensures var t := End(cfg, s, run); id in t.inbox && t.inbox[id] == s.inbox[id]
    decreases |run|
  {
    hide Inv, CanStep, After, Grants;
    if run != [] {
      StepLeavesRow(cfg, s, run[0], id);
      StepKeepsInv(cfg, s, run[0]);
      RunLeavesRow(cfg, After(cfg, s, run[0]), run[1..], id);
    }
  }

  /** A give back under a token that holds makes the row wait, for the time it names and without an owner. */
  lemma GivenBackWaits(inbox: Inbox, c: Claim, now: int, nextAt: int)
    requires Holds(inbox, c, now)
    ensures var after := GivenBack(inbox, c, now, nextAt);
            && after.Keys == inbox.Keys && (forall id :: id in inbox && id != c.eventId ==> after[id] == inbox[id])
            && after[c.eventId].state == PENDING && after[c.eventId].nextAt == nextAt
            && after[c.eventId].owner == None && after[c.eventId].event == inbox[c.eventId].event
            && after[c.eventId].attempts == inbox[c.eventId].attempts
            && after[c.eventId].generation == inbox[c.eventId].generation
  {
  }

  lemma GiveBackIsWritten(cfg: Config, s: World, back: Step)
    requires CanStep(cfg, s, back) && back.GiveBack? && s.workers[back.w].claim.Some?
    requires Holds(s.inbox, s.workers[back.w].claim.value, back.now)
    ensures var t, id := After(cfg, s, back), s.workers[back.w].claim.value.eventId;
            IsWaiting(t, id) && t.inbox[id].nextAt == back.nextAt && t.inbox[id].owner == None
  {
    hide CanStep, After, MayWriteRow, GivenBack;
    GiveBackStep(cfg, s, back);
    GivenBackWaits(s.inbox, s.workers[back.w].claim.value, back.now, back.nextAt);
  }

  /**
   * In every run, once a failed attempt has given its row back, the row stays as it was given back - through
   * redelivery, stale owners, renewals and purges - until its next claim, and that claim is granted to nobody
   * before the retry time.
   */
  lemma RetryTimeIsWaitedFor(
    cfg: Config, clock: int, past: seq<Step>, back: Step, later: seq<Step>, claim: Step, id: EventId)
    requires cfg.Valid() && IsRun(cfg, Initial(clock), past)
    requires var s := End(cfg, Initial(clock), past);
             && CanStep(cfg, s, back) && back.GiveBack? && s.workers[back.w].claim.Some?
             && s.workers[back.w].claim.value.eventId == id && Holds(s.inbox, s.workers[back.w].claim.value, back.now)
             && IsRun(cfg, After(cfg, s, back), later) && NeverGranted(cfg, After(cfg, s, back), later, id)
             && var t := End(cfg, After(cfg, s, back), later);
                CanStep(cfg, t, claim) && claim.TryClaim? && claim.event.eventId == id
    ensures var given := After(cfg, End(cfg, Initial(clock), past), back);
            var t := End(cfg, given, later);
            && id in given.inbox && given.inbox[id].nextAt == back.nextAt
            && id in t.inbox && t.inbox[id] == given.inbox[id]
            && (Grants(cfg, t, claim) ==> claim.appNow >= back.nextAt)
  {
    ReachableInv(cfg, clock, past);
    var s := End(cfg, Initial(clock), past);
    hide IsRun, End, CanStep, After, Inv, NeverGranted, Initial, Grants, Holds, RowLocked, ClaimEnds;
    GiveBackIsWritten(cfg, s, back);
    StepKeepsInv(cfg, s, back);
    var given := After(cfg, s, back);
    RunLeavesRow(cfg, given, later, id);
    var t := End(cfg, given, later);
    if Grants(cfg, t, claim) {
      GrantedIsClaimed(cfg, t, claim);
      ClaimedIsDue(t.inbox, EnsuredPermits(cfg, t, claim.event.sellerId, claim.cached), t.admissions, t.orders,
        claim.event, cfg.limits, claim.at, claim.appNow, RowLocked(t.workers, id));
    }
  }

  // ---- slots

  /** No slot has a number beyond the permits. */
  ghost predicate SlotsOk(permits: Permits, count: nat) {
    forall slot :: slot in permits ==> 1 <= slot.number <= count
  }

  lemma ReleaseKeepsKeys(permits: Permits, claim: Option<Claim>)
    ensures ReleasedBy(permits, claim).Keys == permits.Keys
  {
  }

  lemma RenewalKeepsKeys(inbox: Inbox, permits: Permits, c: Claim, now: int, later: int, leaseMs: int)
    ensures RenewedPermits(inbox, permits, c, now, later, leaseMs).Keys == permits.Keys
  {
    hide Holds;
  }

  lemma WorkerWritesPermits(cfg: Config, s: World, step: Step)
    requires CanStep(cfg, s, step) && WritesUnderClaim(step)
    ensures After(cfg, s, step).permits.Keys == s.permits.Keys
  {
    hide CanStep, After, MayWriteRow, ReleasedBy, StillHolds, CompletedBy, GivenBackBy, LastSequence, Collides;
    if step.FinishDuplicate? {
      DuplicateStep(cfg, s, step);
    } else if step.ReadLedger? {
      ReadStep(cfg, s, step);
    } else if step.Commit? {
      CommitStep(cfg, s, step);
    } else {
      GiveBackStep(cfg, s, step);
    }
    ReleaseKeepsKeys(s.permits, s.workers[step.w].claim);
  }

  lemma GrantKeepsSlots(
    limits: Limits, s: World, w: nat, e: Event, c: Claim, permits: Permits, at: ClaimClock, count: nat)
    requires e.eventId in s.inbox && SlotsOk(permits, count) && 1 <= c.slot <= count
    ensures SlotsOk(Granted(limits, s, w, e, c, permits, at).permits, count)
  {
  }

  lemma EnsureKeepsSlots(permits: Permits, sellerId: SellerId, count: nat)
    requires SlotsOk(permits, count)
    ensures SlotsOk(WithPermits(permits, sellerId, count), count)
  {
  }

  lemma ClaimKeepsSlots(cfg: Config, s: World, step: Step)
    requires CanStep(cfg, s, step) && step.TryClaim? && SlotsOk(s.permits, cfg.limits.sellerPermits)
    ensures SlotsOk(After(cfg, s, step).permits, cfg.limits.sellerPermits)
  {
    hide CanStep, After, ClaimEnds, RowLocked, Known, SlotsOk, Granted, WithPermits, FirstFree;
    var permits := EnsuredPermits(cfg, s, step.event.sellerId, step.cached);
    EnsureKeepsSlots(s.permits, step.event.sellerId, cfg.limits.sellerPermits);
    ClaimStep(cfg, s, step);
    if ClaimEnds(s.inbox, permits, s.admissions, s.orders, step.event, cfg.limits, step.at, step.appNow,
      RowLocked(s.workers, step.event.eventId)) == Claimed {
      GrantStep(cfg, s, step, permits);
      var c := ClaimToken(s.inbox, permits, step.event, step.instance, cfg.limits, step.at);
      GrantKeepsSlots(cfg.limits, s, step.w, step.event, c, permits, step.at, cfg.limits.sellerPermits);
    }
  }

  lemma OthersKeepSlots(cfg: Config, s: World, step: Step)
    requires CanStep(cfg, s, step) && !step.TryClaim? && !WritesUnderClaim(step) && !step.Renew?
    ensures After(cfg, s, step).permits == s.permits
  {
    hide IsPoll, StoreAll, RowLocked, MayPurge, Without;
    if step.Poll? {
      hide CanStep, After;
      PollStep(cfg, s, step);
    }
  }

  lemma SameKeysKeepSlots(permits: Permits, after: Permits, count: nat)
    requires SlotsOk(permits, count) && after.Keys == permits.Keys
    ensures SlotsOk(after, count)
  {
    assert forall slot :: slot in after ==> slot in after.Keys && slot in permits.Keys;
  }

  lemma StepKeepsSlots(cfg: Config, s: World, step: Step)
    requires CanStep(cfg, s, step) && SlotsOk(s.permits, cfg.limits.sellerPermits)
    ensures SlotsOk(After(cfg, s, step).permits, cfg.limits.sellerPermits)
  {
    hide CanStep, After, RenewedPermits, RenewedInbox;
    if step.TryClaim? {
      ClaimKeepsSlots(cfg, s, step);
    } else if WritesUnderClaim(step) {
      WorkerWritesPermits(cfg, s, step);
      SameKeysKeepSlots(s.permits, After(cfg, s, step).permits, cfg.limits.sellerPermits);
    } else if step.Renew? {
      RenewStep(cfg, s, step);
      RenewalKeepsKeys(s.inbox, s.permits, step.claim, step.now, step.later, cfg.limits.leaseMs);
      SameKeysKeepSlots(s.permits, After(cfg, s, step).permits, cfg.limits.sellerPermits);
    } else {
      OthersKeepSlots(cfg, s, step);
    }
  }

  lemma {:induction false} RunKeepsSlots(cfg: Config, s: World, run: seq<Step>)
    requires IsRun(cfg, s, run) && SlotsOk(s.permits, cfg.limits.sellerPermits)
    ensures SlotsOk(End(cfg, s, run).permits, cfg.limits.sellerPermits)
    decreases |run|
  {
    hide CanStep, After, SlotsOk;
    if run != [] {
      StepKeepsSlots(cfg, s, run[0]);
      RunKeepsSlots(cfg, After(cfg, s, run[0]), run[1..]);
    }
  }
}
