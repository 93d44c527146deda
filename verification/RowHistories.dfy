/**
 * What becomes of one inbox row over a whole run: where it came from, what every attempt at it cost, how long each
 * claim of it stands, and when it may leave.
 */
module RowHistories {
  import opened Domain
  import opened InboxTables
  import SellerApi
  import opened DeliveryProtocol
  import opened DeliveryInvariant
  import opened IntakeLemmas
  import opened DeliverySteps
  import opened DeliveryTheorems
  import opened ClaimTheorems

  // ---- where a row comes from

  /** The topic holds the row's event at the row's partition and offset. */
  predicate IsFromTopic(topic: map<int, seq<Event>>, row: Row) {
    row.partition in topic && row.offset < |topic[row.partition]| && topic[row.partition][row.offset] == row.event
  }

  /** All admissions of retries of the event there ever were. */
  function Admitted(history: seq<Admission>, id: EventId): nat {
    if history == [] then 0
    else
      var last := history[|history| - 1];
      Admitted(history[..|history| - 1], id) + if last.eventId == id then 1 else 0
  }

  /** Every attempt was claimed once, and every one but the first was admitted, once. */
  ghost predicate IsAccounted(
    topic: map<int, seq<Event>>, inbox: Inbox, effects: Effects, history: seq<Admission>, id: EventId)
  {
    && (id in inbox ==>
          && IsFromTopic(topic, inbox[id]) && inbox[id].attempts == inbox[id].generation
          && Admitted(history, id) == Max(inbox[id].attempts - 1, 0))
    && (id !in inbox && id !in effects ==> Admitted(history, id) == 0)
  }

  ghost predicate RowAccounted(cfg: Config, s: World, id: EventId) {
    IsAccounted(cfg.topic, s.inbox, s.effects, s.history, id)
  }

  predicate SameCounts(a: Row, b: Row) {
    && a.event == b.event && a.partition == b.partition && a.offset == b.offset && a.receivedAt == b.receivedAt
    && a.attempts == b.attempts && a.generation == b.generation
  }

  /** The rows are the same ones, whatever became of their claims. */
  ghost predicate KeepsCounts(inbox: Inbox, after: Inbox) {
    after.Keys == inbox.Keys && forall id :: id in inbox ==> SameCounts(inbox[id], after[id])
  }

  lemma WritesKeepCounts(inbox: Inbox, claim: Option<Claim>, doneAt: int, now: int, nextAt: int, leaseMs: int)
    ensures KeepsCounts(inbox, CompletedBy(inbox, claim, doneAt))
    ensures KeepsCounts(inbox, GivenBackBy(inbox, claim, now, nextAt))
    ensures claim.Some? ==> KeepsCounts(inbox, RenewedInbox(inbox, claim.value, now, leaseMs))
  {
  }

  lemma WritersIssueNothing(cfg: Config, s: World, step: Step)
    requires CanStep(cfg, s, step) && WritesUnderClaim(step)
    ensures After(cfg, s, step).issued == s.issued && After(cfg, s, step).history == s.history
  {
    hide CanStep, After, MayWriteRow, ReleasedBy, StillHolds, CompletedBy, GivenBackBy, LastSequence, Collides;
    if step.FinishDuplicate? {
      DuplicateStep(cfg, s, step);
    } else if step.ReadLedger? {
      ReadStep(cfg, s, step);
    } else if step.Commit? {
      CommitStep(cfg, s, step);
    } else {
      GiveBackStep(cfg, s, step);
    }
  }

  lemma OnlyClaimsIssue(cfg: Config, s: World, step: Step)
    requires CanStep(cfg, s, step) && !step.TryClaim?
    ensures After(cfg, s, step).issued == s.issued && After(cfg, s, step).history == s.history
  {
    hide IsPoll, StoreAll, RowLocked, MayPurge, Without, StillHolds, RenewedInbox, RenewedPermits, SellerApi.Status,
      SellerApi.Dropped, SellerApi.Decided, LastSequence;
    if step.Poll? {
      hide CanStep, After;
      PollStep(cfg, s, step);
    } else if WritesUnderClaim(step) {
      WritersIssueNothing(cfg, s, step);
    }
  }

  lemma WriterKeepsCounts(cfg: Config, s: World, step: Step)
    requires CanStep(cfg, s, step) && (WritesUnderClaim(step) || step.Renew?)
    ensures KeepsCounts(s.inbox, After(cfg, s, step).inbox)
  {
    hide CanStep, After, CompletedBy, GivenBackBy, RenewedInbox, RenewedPermits, RowLocked;
    if step.Renew? {
      RenewStep(cfg, s, step);
      WritesKeepCounts(s.inbox, Some(step.claim), 0, step.now, 0, cfg.limits.leaseMs);
    } else {
      WorkerWrites(cfg, s, step);
      var claim := s.workers[step.w].claim;
      if step.GiveBack? {
        WritesKeepCounts(s.inbox, claim, 0, step.now, step.nextAt, 0);
      } else {
        WritesKeepCounts(s.inbox, claim, step.doneAt, 0, 0, 0);
      }
    }
  }

  lemma FreshIsFromTopic(cfg: Config, s: World, step: Step, id: EventId, row: Row)
    requires step.Poll? && IsPoll(cfg, s.positions, step.instance, step.upto, step.records)
    requires IsFresh(step.records, id, row, step.receivedAt)
    ensures IsFromTopic(cfg.topic, row) && row.attempts == row.generation == 0
  {
    var r :| r in step.records && r.event.eventId == id && row == NewRow(r, step.receivedAt);
    var i :| 0 <= i < |step.records| && step.records[i] == r;
    assert IsPolled(cfg, s.positions, step.instance, step.upto, step.records[i]);
  }

  lemma NewIsUndelivered(inbox: Inbox, effects: Effects, records: seq<Record>, id: EventId)
    requires id in NewIds(inbox, effects, records)
    ensures id !in inbox && id !in effects
  {
  }

  lemma NewRowKeepsAccounts(
    topic: map<int, seq<Event>>, inbox: Inbox, after: Inbox, effects: Effects, history: seq<Admission>, id: EventId)
    requires IsAccounted(topic, inbox, effects, history, id)
    requires id in inbox ==> id in after && after[id] == inbox[id]
    requires id !in inbox && id in after ==>
               id !in effects && IsFromTopic(topic, after[id]) && after[id].attempts == after[id].generation == 0
    ensures IsAccounted(topic, after, effects, history, id)
  {
    hide IsFromTopic, Admitted;
  }

  lemma PollKeepsAccounts(cfg: Config, s: World, step: Step, id: EventId)
    requires CanStep(cfg, s, step) && step.Poll? && RowAccounted(cfg, s, id)
    ensures RowAccounted(cfg, After(cfg, s, step), id)
  {
    hide CanStep, After, IsPoll, StoreAll, IsFresh, Advanced, IsFromTopic, NewIds, IsAccounted, Stored;
    PollStep(cfg, s, step);
    StoreAllIsExact(s.inbox, s.effects, step.records, cfg.pendingLimit, cfg.retainedLimit, step.receivedAt);
    var after := StoreAll(s.inbox, s.effects, step.records, cfg.pendingLimit, cfg.retainedLimit, step.receivedAt);
    if after.Some? {
      assert id in after.value.Keys ==> id in s.inbox.Keys || id in NewIds(s.inbox, s.effects, step.records);
      if id in after.value && id !in s.inbox {
        NewIsUndelivered(s.inbox, s.effects, step.records, id);
        FreshIsFromTopic(cfg, s, step, id, after.value[id]);
      }
      NewRowKeepsAccounts(cfg.topic, s.inbox, after.value, s.effects, s.history, id);
    }
  }

  lemma GrantKeepsAccounts(
    topic: map<int, seq<Event>>, limits: Limits, s: World, w: nat, e: Event, c: Claim, permits: Permits,
    at: ClaimClock, id: EventId)
    requires e.eventId in s.inbox && IsAccounted(topic, s.inbox, s.effects, s.history, id)
    requires c.generation == s.inbox[e.eventId].generation + 1 && c.retry == (s.inbox[e.eventId].attempts > 0)
    ensures var t := Granted(limits, s, w, e, c, permits, at);
            IsAccounted(topic, t.inbox, t.effects, t.history, id)
  {
    var a := Admission(e.sellerId, e.eventId, at.admit);
    assert (s.history + [a])[..|s.history|] == s.history && s.history + [] == s.history;
    hide IsFromTopic;
  }

  lemma TokenTells(inbox: Inbox, permits: Permits, e: Event, owner: InstanceId, limits: Limits, at: ClaimClock)
    requires e.eventId in inbox && FirstFree(permits, e.sellerId, 1, limits.sellerPermits, at.permits).Some?
    ensures var c, row := ClaimToken(inbox, permits, e, owner, limits, at), inbox[e.eventId];
            && c.eventId == e.eventId && c.sellerId == e.sellerId && c.owner == owner
            && c.generation == row.generation + 1 && (c.retry <==> row.attempts > 0)
            && (c.reclaimed <==> row.state == CLAIMED)
  {
  }

  lemma ClaimKeepsAccounts(cfg: Config, s: World, step: Step, id: EventId)
    requires CanStep(cfg, s, step) && step.TryClaim? && RowAccounted(cfg, s, id)
    ensures RowAccounted(cfg, After(cfg, s, step), id)
  {
    hide CanStep, After, Granted, ClaimEnds, ClaimToken, EnsuredPermits, RowLocked, FirstFree, Known, IsAccounted;
    var permits := EnsuredPermits(cfg, s, step.event.sellerId, step.cached);
    ClaimStep(cfg, s, step);
    if ClaimEnds(s.inbox, permits, s.admissions, s.orders, step.event, cfg.limits, step.at, step.appNow,
      RowLocked(s.workers, step.event.eventId)) == Claimed {
      GrantStep(cfg, s, step, permits);
      TokenTells(s.inbox, permits, step.event, step.instance, cfg.limits, step.at);
      GrantKeepsAccounts(cfg.topic, cfg.limits, s, step.w, step.event,
        ClaimToken(s.inbox, permits, step.event, step.instance, cfg.limits, step.at), permits, step.at, id);
    }
  }

  lemma CountsKeepAccounts(
    topic: map<int, seq<Event>>, inbox: Inbox, after: Inbox, effects: Effects, later: Effects,
    history: seq<Admission>, id: EventId)
    requires IsAccounted(topic, inbox, effects, history, id) && KeepsCounts(inbox, after)
    requires id in effects ==> id in later
    ensures IsAccounted(topic, after, later, history, id)
  {
    assert id in after.Keys <==> id in inbox.Keys;
    if id in inbox {
      assert SameCounts(inbox[id], after[id]);
    }
  }

  lemma PurgeIs(cfg: Config, s: World, step: Step)
    requires CanStep(cfg, s, step) && step.PurgeDone?
    ensures MayPurge(s.inbox, step.ids, step.cutoff)
    ensures After(cfg, s, step) == s.(inbox := s.inbox - step.ids)
  {
    hide MayPurge;
  }

  lemma PurgeKeepsAccounts(cfg: Config, s: World, step: Step, id: EventId)
    requires Inv(cfg, s) && CanStep(cfg, s, step) && step.PurgeDone? && RowAccounted(cfg, s, id)
    ensures RowAccounted(cfg, After(cfg, s, step), id)
  {
    hide Inv, CanStep, After, MayPurge, IsFromTopic, Admitted;
    PurgeIs(cfg, s, step);
    PurgedIsDelivered(cfg, s, step.ids, step.cutoff);
    assert id in step.ids ==> id in s.effects.Keys;
  }

  lemma StepKeepsAccounts(cfg: Config, s: World, step: Step, id: EventId)
    requires Inv(cfg, s) && CanStep(cfg, s, step) && RowAccounted(cfg, s, id)
    ensures RowAccounted(cfg, After(cfg, s, step), id)
  {
    hide Inv, CanStep, After, IsAccounted;
    StepProgresses(cfg, s, step, id);
    if step.Poll? {
      PollKeepsAccounts(cfg, s, step, id);
    } else if step.TryClaim? {
      ClaimKeepsAccounts(cfg, s, step, id);
    } else if step.PurgeDone? {
      PurgeKeepsAccounts(cfg, s, step, id);
    } else {
      OnlyClaimsIssue(cfg, s, step);
      if WritesUnderClaim(step) || step.Renew? {
        WriterKeepsCounts(cfg, s, step);
        CountsKeepAccounts(cfg.topic, s.inbox, After(cfg, s, step).inbox, s.effects, After(cfg, s, step).effects,
          s.history, id);
      } else {
        OtherStepsKeepRows(cfg, s, step);
      }
    }
  }

  lemma {:induction false} RunKeepsAccounts(cfg: Config, s: World, run: seq<Step>, id: EventId)
    requires Inv(cfg, s) && IsRun(cfg, s, run) && RowAccounted(cfg, s, id)
    ensures RowAccounted(cfg, End(cfg, s, run), id)
    decreases |run|
  {
    hide Inv, CanStep, After, RowAccounted;
    if run != [] {
      StepKeepsAccounts(cfg, s, run[0], id);
      StepKeepsInv(cfg, s, run[0]);
      RunKeepsAccounts(cfg, After(cfg, s, run[0]), run[1..], id);
    }
  }

  lemma NothingToAccount(cfg: Config, clock: int, id: EventId)
    ensures RowAccounted(cfg, Initial(clock), id)
  {
  }

  lemma AccountsTell(cfg: Config, s: World, id: EventId)
    requires RowAccounted(cfg, s, id) && id in s.inbox
    ensures IsFromTopic(cfg.topic, s.inbox[id]) && s.inbox[id].attempts == s.inbox[id].generation
    ensures Admitted(s.history, id) == Max(s.inbox[id].attempts - 1, 0)
  {
    hide IsFromTopic, Admitted;
  }

  /**
   * In every run each row holds the event that the topic has at its partition and offset; it has been claimed as
   * often as its generation says, and every claim but the first spent one admission of the seller's retry budget,
   * whichever instances made them.
   */
  lemma EveryRetryIsAdmitted(cfg: Config, clock: int, run: seq<Step>, id: EventId)
    requires cfg.Valid() && IsRun(cfg, Initial(clock), run) && id in End(cfg, Initial(clock), run).inbox
    ensures var s := End(cfg, Initial(clock), run);
            && IsFromTopic(cfg.topic, s.inbox[id]) && s.inbox[id].attempts == s.inbox[id].generation
            && Admitted(s.history, id) == Max(s.inbox[id].attempts - 1, 0)
  {
    hide Inv, IsRun, End, IsFromTopic, Initial, RowAccounted, Admitted, Config.Valid, CanStep, After;
    InitialInv(cfg, clock);
    NothingToAccount(cfg, clock, id);
    RunKeepsAccounts(cfg, Initial(clock), run, id);
    AccountsTell(cfg, End(cfg, Initial(clock), run), id);
  }

  // ---- how long a claim stands

  /** The row is under way for the token, with a lease until the instant. */
  predicate StandsFor(inbox: Inbox, c: Claim, leaseUntil: int) {
    && c.eventId in inbox && inbox[c.eventId].state == CLAIMED && inbox[c.eventId].owner == Some(c.owner)
    && inbox[c.eventId].generation == c.generation && inbox[c.eventId].leaseUntil == leaseUntil
  }

  /** Nobody claims the event, and no step finishes, gives back or renews the claim. */
  ghost predicate LeavesClaim(cfg: Config, s: World, step: Step, c: Claim)
    requires CanStep(cfg, s, step)
  {
    && (step.TryClaim? && step.event.eventId == c.eventId ==> !Grants(cfg, s, step))
    && (WritesUnderClaim(step) ==> step.w in s.workers && s.workers[step.w].claim != Some(c))
    && (step.Renew? ==> step.claim != c)
  }

  ghost predicate LeftAlone(cfg: Config, s: World, run: seq<Step>, c: Claim)
    requires IsRun(cfg, s, run)
    decreases |run|
  {
    run == [] || (LeavesClaim(cfg, s, run[0], c) && LeftAlone(cfg, After(cfg, s, run[0]), run[1..], c))
  }

  /** The step is a claim of the event, and it is granted. */
  ghost predicate TakesOver(cfg: Config, s: World, step: Step, id: EventId) {
    CanStep(cfg, s, step) && step.TryClaim? && step.event.eventId == id && Grants(cfg, s, step)
  }

  lemma OnlyTokenNames(cfg: Config, s: World, c: Claim, d: Claim, leaseUntil: int)
    requires Inv(cfg, s) && StandsFor(s.inbox, c, leaseUntil) && c in s.issued && d in s.issued
    requires d.eventId == c.eventId && Names(s.inbox, d)
    ensures d == c
  {
    TablesOfInv(cfg, s);
    hide Inv, TokensOk, InboxOk, WellNumbered;
  }

  lemma WorkersHaveIssued(cfg: Config, s: World, w: nat)
    requires Inv(cfg, s) && w in s.workers && s.workers[w].claim.Some?
    ensures s.workers[w].claim.value in s.issued
  {
    hide LedgerOk, InboxOk, TokensOk, LocksOk, OrderOk, CallsOk, SellerOk, GapOk, OffsetsOk, CapacityOk, BudgetOk,
      WellNumbered;
  }

  lemma ClaimedIsKept(cfg: Config, s: World, step: Step, c: Claim, leaseUntil: int)
    requires CanStep(cfg, s, step) && step.PurgeDone? && StandsFor(s.inbox, c, leaseUntil)
    ensures c.eventId !in step.ids
  {
  }

  lemma RenewedIsIssued(cfg: Config, s: World, step: Step)
    requires CanStep(cfg, s, step) && step.Renew?
    ensures step.claim in s.issued
  {
    hide RowLocked;
  }

  lemma IssuedStays(cfg: Config, s: World, step: Step)
    requires CanStep(cfg, s, step)
    ensures s.issued <= After(cfg, s, step).issued
  {
    hide CanStep, After, MayWriteRow, Granted, ClaimEnds, EnsuredPermits, RowLocked, AfterPoll, CompletedBy, Known;
    if step.TryClaim? {
      ClaimStep(cfg, s, step);
      var permits := EnsuredPermits(cfg, s, step.event.sellerId, step.cached);
      if ClaimEnds(s.inbox, permits, s.admissions, s.orders, step.event, cfg.limits, step.at, step.appNow,
        RowLocked(s.workers, step.event.eventId)) == Claimed {
        GrantStep(cfg, s, step, permits);
        GrantChangesOneRow(cfg.limits, s, step.w, step.event,
          ClaimToken(s.inbox, permits, step.event, step.instance, cfg.limits, step.at), permits, step.at);
      }
    } else {
      OnlyClaimsIssue(cfg, s, step);
    }
  }

  lemma StepLeavesClaim(cfg: Config, s: World, step: Step, c: Claim, leaseUntil: int)
    requires Inv(cfg, s) && CanStep(cfg, s, step) && c in s.issued && StandsFor(s.inbox, c, leaseUntil)
    requires LeavesClaim(cfg, s, step, c)
    ensures var t := After(cfg, s, step);
            c in t.issued && StandsFor(t.inbox, c, leaseUntil) && t.inbox[c.eventId] == s.inbox[c.eventId]
  {
    hide Inv, CanStep, After, Grants, Names;
    IssuedStays(cfg, s, step);
    if WritesUnderClaim(step) && WritesUnder(s, step.w, c.eventId) {
      WorkersHaveIssued(cfg, s, step.w);
      OnlyTokenNames(cfg, s, c, s.workers[step.w].claim.value, leaseUntil);
    }
    if step.Renew? && step.claim.eventId == c.eventId && Names(s.inbox, step.claim) {
      RenewedIsIssued(cfg, s, step);
      OnlyTokenNames(cfg, s, c, step.claim, leaseUntil);
    }
    if step.PurgeDone? {
      ClaimedIsKept(cfg, s, step, c, leaseUntil);
    }
    UntouchedStays(cfg, s, step, c.eventId);
  }

  lemma {:induction false} RunLeavesClaim(cfg: Config, s: World, run: seq<Step>, c: Claim, leaseUntil: int)
    requires Inv(cfg, s) && IsRun(cfg, s, run) && c in s.issued && StandsFor(s.inbox, c, leaseUntil)
    requires LeftAlone(cfg, s, run, c)
    ensures StandsFor(End(cfg, s, run).inbox, c, leaseUntil)
    decreases |run|
  {
    hide Inv, CanStep, After, StandsFor, LeavesClaim;
    if run != [] {
      StepLeavesClaim(cfg, s, run[0], c, leaseUntil);
      StepKeepsInv(cfg, s, run[0]);
      RunLeavesClaim(cfg, After(cfg, s, run[0]), run[1..], c, leaseUntil);
    }
  }

  lemma GrantStands(limits: Limits, s: World, w: nat, e: Event, c: Claim, permits: Permits, at: ClaimClock)
    requires e.eventId in s.inbox && c.eventId == e.eventId
    ensures var t := Granted(limits, s, w, e, c, permits, at);
            c in t.issued && StandsFor(t.inbox, c, at.inbox + limits.leaseMs)
  {
  }

  /** A granted claim stands for its token, until the full lease counted from the statement that wrote it. */
  lemma GrantedStands(cfg: Config, s: World, step: Step) returns (c: Claim)
    requires CanStep(cfg, s, step) && step.TryClaim? && Grants(cfg, s, step)
    ensures var t := After(cfg, s, step);
            && t.issued == s.issued + {c} && StandsFor(t.inbox, c, step.at.inbox + cfg.limits.leaseMs)
            && c.eventId == step.event.eventId && c.owner == step.instance
  {
    hide CanStep, After, Granted, ClaimEnds, ClaimToken, EnsuredPermits, RowLocked, FirstFree, Known;
    var permits := EnsuredPermits(cfg, s, step.event.sellerId, step.cached);
    GrantedIsClaimed(cfg, s, step);
    GrantStep(cfg, s, step, permits);
    c := ClaimToken(s.inbox, permits, step.event, step.instance, cfg.limits, step.at);
    TokenTells(s.inbox, permits, step.event, step.instance, cfg.limits, step.at);
    GrantChangesOneRow(cfg.limits, s, step.w, step.event, c, permits, step.at);
    GrantStands(cfg.limits, s, step.w, step.event, c, permits, step.at);
  }

  lemma StandingHolds(inbox: Inbox, c: Claim, leaseUntil: int)
    requires StandsFor(inbox, c, leaseUntil)
    ensures forall now :: Holds(inbox, c, now) <==> now <= leaseUntil
  {
  }

  lemma TakenAfterLease(cfg: Config, s: World, next: Step, c: Claim, leaseUntil: int)
    requires StandsFor(s.inbox, c, leaseUntil) && TakesOver(cfg, s, next, c.eventId)
    ensures next.at.row > leaseUntil
  {
    hide CanStep, After, Grants, ClaimEnds, RowLocked;
    GrantedIsClaimed(cfg, s, next);
    ClaimedIsDue(s.inbox, EnsuredPermits(cfg, s, next.event.sellerId, next.cached), s.admissions, s.orders,
      next.event, cfg.limits, next.at, next.appNow, RowLocked(s.workers, c.eventId));
  }

  /**
   * In every run a granted claim that nobody renews holds for its full lease, counted from the statement that wrote
   * it, whatever other tokens of the event are still about, unless its own worker finishes it or gives it back; and
   * as long as the worker does neither, the row's next claim comes after that lease.
   */
  lemma ClaimHoldsForItsLease(cfg: Config, clock: int, past: seq<Step>, grant: Step, later: seq<Step>, next: Step)
    returns (c: Claim)
    requires cfg.Valid() && IsRun(cfg, Initial(clock), past)
    requires var s := End(cfg, Initial(clock), past);
             CanStep(cfg, s, grant) && grant.TryClaim? && Grants(cfg, s, grant)
             && IsRun(cfg, After(cfg, s, grant), later)
    ensures var s := End(cfg, Initial(clock), past);
            var t := End(cfg, After(cfg, s, grant), later);
            && After(cfg, s, grant).issued == s.issued + {c}
            && c.eventId == grant.event.eventId && c.owner == grant.instance
            && (LeftAlone(cfg, After(cfg, s, grant), later, c) ==>
                  && (forall now :: Holds(t.inbox, c, now) <==> now <= grant.at.inbox + cfg.limits.leaseMs)
                  && (TakesOver(cfg, t, next, c.eventId) ==> next.at.row > grant.at.inbox + cfg.limits.leaseMs))
  {
    hide IsRun, End, CanStep, After, Inv, LeftAlone, Initial, Grants, Holds, StandsFor, TakesOver, Config.Valid;
    ReachableInv(cfg, clock, past);
    var s := End(cfg, Initial(clock), past);
    c := GrantedStands(cfg, s, grant);
    StepKeepsInv(cfg, s, grant);
    var given, until := After(cfg, s, grant), grant.at.inbox + cfg.limits.leaseMs;
    if LeftAlone(cfg, given, later, c) {
      RunLeavesClaim(cfg, given, later, c, until);
      var t := End(cfg, given, later);
      StandingHolds(t.inbox, c, until);
      if TakesOver(cfg, t, next, c.eventId) {
        TakenAfterLease(cfg, t, next, c, until);
      }
    }
  }

  // ---- when a row may leave

  /** The row was finished at the instant and has no owner. */
  predicate IsFinished(inbox: Inbox, id: EventId, doneAt: int) {
    id in inbox && inbox[id].state == DONE && inbox[id].doneAt == Some(doneAt)
  }

  /** Some purge of the run, with a cutoff after the instant, was to delete the row. */
  predicate WasPurged(run: seq<Step>, id: EventId, doneAt: int) {
    exists i :: 0 <= i < |run| && run[i].PurgeDone? && id in run[i].ids && run[i].cutoff > doneAt
  }

  lemma FinishedHasNoOwner(cfg: Config, s: World, id: EventId, doneAt: int)
    requires Inv(cfg, s) && IsFinished(s.inbox, id, doneAt)
    ensures s.inbox[id].owner == None && forall c: Claim :: c.eventId == id ==> !Names(s.inbox, c)
  {
    hide LedgerOk, TokensOk, WorkersOk, LocksOk, OrderOk, CallsOk, SellerOk, GapOk, OffsetsOk, CapacityOk, BudgetOk,
      WellNumbered;
    assert RowOk(cfg.catalogue, s.effects, s.orders, id, s.inbox[id]);
  }

  lemma FinishedIsNotClaimed(cfg: Config, s: World, step: Step, id: EventId, doneAt: int)
    requires CanStep(cfg, s, step) && step.TryClaim? && step.event.eventId == id && IsFinished(s.inbox, id, doneAt)
    ensures !Grants(cfg, s, step)
  {
    hide CanStep, Grants, ClaimEnds, RowLocked;
    if Grants(cfg, s, step) {
      GrantedIsClaimed(cfg, s, step);
      ClaimedIsDue(s.inbox, EnsuredPermits(cfg, s, step.event.sellerId, step.cached), s.admissions, s.orders,
        step.event, cfg.limits, step.at, step.appNow, RowLocked(s.workers, id));
    }
  }

  lemma PurgeTakesOld(cfg: Config, s: World, step: Step, id: EventId, doneAt: int)
    requires CanStep(cfg, s, step) && step.PurgeDone? && id in step.ids && IsFinished(s.inbox, id, doneAt)
    ensures step.cutoff > doneAt
  {
  }

  lemma StepKeepsFinished(cfg: Config, s: World, step: Step, id: EventId, doneAt: int)
    requires Inv(cfg, s) && CanStep(cfg, s, step) && IsFinished(s.inbox, id, doneAt)
    ensures WasPurged([step], id, doneAt) || (id in After(cfg, s, step).inbox
              && After(cfg, s, step).inbox[id] == s.inbox[id])
  {
    hide Inv, CanStep, After, Grants, Names;
    FinishedHasNoOwner(cfg, s, id, doneAt);
    if step.PurgeDone? && id in step.ids {
      PurgeTakesOld(cfg, s, step, id, doneAt);
      assert [step][0] == step;
    } else {
      if step.TryClaim? && step.event.eventId == id {
        FinishedIsNotClaimed(cfg, s, step, id, doneAt);
      }
      UntouchedStays(cfg, s, step, id);
    }
  }

  lemma PurgedEarlier(run: seq<Step>, id: EventId, doneAt: int)
    requires run != [] && (WasPurged([run[0]], id, doneAt) || WasPurged(run[1..], id, doneAt))
    ensures WasPurged(run, id, doneAt)
  {
    if WasPurged(run[1..], id, doneAt) {
      var i :| 0 <= i < |run| - 1 && run[1..][i].PurgeDone? && id in run[1..][i].ids && run[1..][i].cutoff > doneAt;
      assert run[i + 1] == run[1..][i];
    }
  }

  lemma {:induction false} RunKeepsFinished(cfg: Config, s: World, run: seq<Step>, id: EventId, doneAt: int)
    requires Inv(cfg, s) && IsRun(cfg, s, run) && IsFinished(s.inbox, id, doneAt)
    ensures WasPurged(run, id, doneAt) || (id in End(cfg, s, run).inbox
              && End(cfg, s, run).inbox[id] == s.inbox[id])
    decreases |run|
  {
    hide Inv, CanStep, After, WasPurged;
    if run != [] {
      StepKeepsFinished(cfg, s, run[0], id, doneAt);
      StepKeepsInv(cfg, s, run[0]);
      var next := After(cfg, s, run[0]);
      if !WasPurged([run[0]], id, doneAt) {
        RunKeepsFinished(cfg, next, run[1..], id, doneAt);
      }
      if WasPurged([run[0]], id, doneAt) || WasPurged(run[1..], id, doneAt) {
        PurgedEarlier(run, id, doneAt);
      }
    }
  }

  lemma CompletionDates(inbox: Inbox, c: Claim, doneAt: int)
    requires Names(inbox, c)
    ensures var after := CompletedBy(inbox, Some(c), doneAt);
            IsFinished(after, c.eventId, doneAt) && after[c.eventId].owner == None
  {
  }

  lemma DeliveryIsDated(cfg: Config, s: World, step: Step)
    requires Inv(cfg, s) && cfg.inboxMode && CanStep(cfg, s, step) && step.Commit?
    requires step.w !in After(cfg, s, step).workers
    ensures step.w in s.workers && IsFinished(After(cfg, s, step).inbox, s.workers[step.w].event.eventId, step.doneAt)
  {
    hide Inv, CanStep, After, Collides, CompletedBy, ReleasedBy, Names;
    CommitStep(cfg, s, step);
    WorkerOwnsItsClaim(cfg, s, step.w);
    LockedIsClaimed(cfg, s, step.w);
    CompletionDates(s.inbox, s.workers[step.w].claim.value, step.doneAt);
  }

  /**
   * In every run a recorded delivery leaves its row done at the time of the recording, and the row stays exactly so
   * until a purge whose cutoff lies after that time.
   */
  lemma DoneRowsAreKept(cfg: Config, clock: int, past: seq<Step>, commit: Step, later: seq<Step>)
    requires cfg.Valid() && cfg.inboxMode && IsRun(cfg, Initial(clock), past)
    requires var s := End(cfg, Initial(clock), past);
             CanStep(cfg, s, commit) && commit.Commit? && commit.w !in After(cfg, s, commit).workers
             && IsRun(cfg, After(cfg, s, commit), later)
    ensures var s := End(cfg, Initial(clock), past);
            commit.w in s.workers
            && var id := s.workers[commit.w].event.eventId;
               WasPurged(later, id, commit.doneAt) || IsFinished(End(cfg, After(cfg, s, commit), later).inbox, id,
                 commit.doneAt)
  {
    ReachableInv(cfg, clock, past);
    var s := End(cfg, Initial(clock), past);
    hide IsRun, End, CanStep, After, Inv, Initial, WasPurged;
    DeliveryIsDated(cfg, s, commit);
    StepKeepsInv(cfg, s, commit);
    RunKeepsFinished(cfg, After(cfg, s, commit), later, s.workers[commit.w].event.eventId, commit.doneAt);
  }
}
