/** What holds in every run of the delivery protocol, from the empty tables on. */
module DeliveryTheorems {
  import opened Domain
  import opened InboxTables
  import opened SellerApi
  import opened DeliveryProtocol
  import opened DeliveryInvariant
  import opened TableLemmas
  import opened IntakeLemmas
  import opened BudgetLemmas
  import opened DeliverySteps

  lemma {:induction false} RunKeepsInv(cfg: Config, s: World, run: seq<Step>)
    requires Inv(cfg, s) && IsRun(cfg, s, run)
    ensures Inv(cfg, End(cfg, s, run))
    decreases |run|
  {
    hide Inv, CanStep, After;
    if run != [] {
      StepKeepsInv(cfg, s, run[0]);
      RunKeepsInv(cfg, After(cfg, s, run[0]), run[1..]);
    }
  }

  lemma ReachableInv(cfg: Config, clock: int, run: seq<Step>)
    requires cfg.Valid() && IsRun(cfg, Initial(clock), run)
    ensures Inv(cfg, End(cfg, Initial(clock), run))
  {
    hide Inv, CanStep, After;
    InitialInv(cfg, clock);
    RunKeepsInv(cfg, Initial(clock), run);
  }

  // ---- the seller against the internal ledger

  /**
   * Whatever crashes, stalls, gets lost or comes late, and whatever the seller's fault policy: the seller
   * is level with the internal ledger of every order or one operation ahead, and it applied 1..n of
   * every order in that order and no event twice.
   */
  lemma SellerIsNeverAheadByTwo(cfg: Config, clock: int, run: seq<Step>, key: OrderKey)
    requires cfg.Valid() && IsRun(cfg, Initial(clock), run)
    ensures var s := End(cfg, Initial(clock), run);
            && LastSequence(s.orders, key) <= LastSequence(s.seller.orders, key) <= LastSequence(s.orders, key) + 1
            && SequencesOf(s.seller.log, key) == UpTo(LastSequence(s.seller.orders, key))
            && (forall i, j :: 0 <= i < j < |s.seller.log| ==> s.seller.log[i].eventId != s.seller.log[j].eventId)
  {
    ReachableInv(cfg, clock, run);
    hide LedgerOk, InboxOk, TokensOk, WorkersOk, LocksOk, OrderOk, CallsOk, OffsetsOk, CapacityOk, BudgetOk, IsRun,
      End;
  }

  // ---- events

  lemma IssuedToken(cfg: Config, s: World, c: Claim)
    requires Inv(cfg, s) && c in s.issued
    ensures c.eventId in s.inbox ==> c.generation <= s.inbox[c.eventId].generation
    ensures c.eventId !in s.inbox ==> c.eventId in s.effects
  {
    hide LedgerOk, InboxOk, WorkersOk, LocksOk, OrderOk, CallsOk, SellerOk, GapOk, OffsetsOk, CapacityOk, BudgetOk,
      WellNumbered;
    assert TokenOk(cfg.catalogue, s.inbox, s.effects, c);
  }

  lemma OtherStepsKeepRows(cfg: Config, s: World, step: Step)
    requires CanStep(cfg, s, step)
    requires !step.Poll? && !step.TryClaim?
    requires !step.FinishDuplicate? && !step.ReadLedger? && !step.Commit? && !step.GiveBack? && !step.Renew?
    requires !step.PurgeDone?
    ensures After(cfg, s, step).inbox == s.inbox && After(cfg, s, step).issued == s.issued
    ensures After(cfg, s, step).effects == s.effects
    ensures s.clock <= After(cfg, s, step).clock
  {
    hide IsPoll, RowLocked, MayPurge, Without, AfterPoll, AfterClaim, Holds;
  }

  /** What may have become of an event between two states: its ledger entry and its generations only grow. */
  ghost predicate Progressed(s: World, t: World, id: EventId) {
    && (id in s.effects ==> id in t.effects && t.effects[id] == s.effects[id])
    && (id in s.inbox && id in t.inbox ==> s.inbox[id].generation <= t.inbox[id].generation)
    && (id in s.inbox && id !in t.inbox ==> id in t.effects)
    && (id in s.effects && id !in s.inbox ==> id !in t.inbox)
  }

  lemma PollProgresses(cfg: Config, s: World, step: Step, id: EventId)
    requires CanStep(cfg, s, step) && step.Poll?
    ensures Progressed(s, After(cfg, s, step), id)
  {
    StoreAllIsExact(s.inbox, s.effects, step.records, cfg.pendingLimit, cfg.retainedLimit, step.receivedAt);
    hide IsPoll, StoreAll, IsFresh;
  }

  lemma GrantProgresses(
    limits: Limits, s: World, w: nat, e: Event, c: Claim, permits: Permits, at: ClaimClock, id: EventId)
    requires e.eventId in s.inbox && c.generation >= s.inbox[e.eventId].generation
    ensures Progressed(s, Granted(limits, s, w, e, c, permits, at), id)
  {
  }

  lemma ClaimProgresses(cfg: Config, s: World, step: Step, id: EventId)
    requires CanStep(cfg, s, step) && step.TryClaim?
    ensures Progressed(s, After(cfg, s, step), id)
  {
    hide CanStep, After, Granted, RowLocked, EnsuredPermits, ClaimEnds, FirstFree, CountSince;
    var e := step.event;
    var permits := EnsuredPermits(cfg, s, e.sellerId, step.cached);
    ClaimStep(cfg, s, step);
    if ClaimEnds(s.inbox, permits, s.admissions, s.orders, e, cfg.limits, step.at, step.appNow,
      RowLocked(s.workers, e.eventId)) == Claimed {
      GrantStep(cfg, s, step, permits);
      GrantProgresses(cfg.limits, s, step.w, e,
        ClaimToken(s.inbox, permits, e, step.instance, cfg.limits, step.at), permits, step.at, id);
    }
  }

  lemma RowWriteProgresses(cfg: Config, s: World, step: Step, id: EventId)
    requires CanStep(cfg, s, step)
    requires step.FinishDuplicate? || step.ReadLedger? || step.GiveBack? || step.Renew?
    ensures Progressed(s, After(cfg, s, step), id)
  {
    hide CanStep, After, MayWriteRow, Released, RenewedPermits, LastSequence;
    if step.FinishDuplicate? {
      DuplicateStep(cfg, s, step);
    } else if step.ReadLedger? {
      ReadStep(cfg, s, step);
    } else if step.GiveBack? {
      GiveBackStep(cfg, s, step);
    } else {
      RenewStep(cfg, s, step);
    }
  }

  lemma CompletionProgresses(inbox: Inbox, claim: Option<Claim>, doneAt: int)
    ensures var after := CompletedBy(inbox, claim, doneAt);
            && after.Keys == inbox.Keys
            && forall id :: id in inbox ==> after[id].generation == inbox[id].generation
  {
  }

  lemma Uncollided(effects: Effects, e: Event)
    requires !Collides(effects, e)
    ensures e.eventId !in effects
  {
  }

  lemma CommitProgresses(cfg: Config, s: World, step: Step, id: EventId)
    requires CanStep(cfg, s, step) && step.Commit?
    ensures Progressed(s, After(cfg, s, step), id)
  {
    hide CanStep, After, Collides, CompletedBy, ReleasedBy;
    CommitStep(cfg, s, step);
    CompletionProgresses(s.inbox, s.workers[step.w].claim, step.doneAt);
    var e := s.workers[step.w].event;
    if !Collides(s.effects, e) {
      Uncollided(s.effects, e);
      var inbox := CompletedBy(s.inbox, s.workers[step.w].claim, step.doneAt);
      assert id in inbox.Keys <==> id in s.inbox.Keys;
    }
  }

  lemma PurgedIsDelivered(cfg: Config, s: World, ids: set<EventId>, cutoff: int)
    requires Inv(cfg, s) && MayPurge(s.inbox, ids, cutoff)
    ensures ids <= s.effects.Keys
  {
    hide LedgerOk, TokensOk, WorkersOk, LocksOk, OrderOk, CallsOk, SellerOk, GapOk, OffsetsOk, CapacityOk, BudgetOk,
      WellNumbered;
    forall id | id in ids
      ensures id in s.effects
    {
      assert RowOk(cfg.catalogue, s.effects, s.orders, id, s.inbox[id]);
    }
  }

  lemma StepProgresses(cfg: Config, s: World, step: Step, id: EventId)
    requires Inv(cfg, s) && CanStep(cfg, s, step)
    ensures Progressed(s, After(cfg, s, step), id)
  {
    hide Inv;
    if step.Poll? {
      PollProgresses(cfg, s, step, id);
    } else if step.TryClaim? {
      ClaimProgresses(cfg, s, step, id);
    } else if step.PurgeDone? {
      PurgedIsDelivered(cfg, s, step.ids, step.cutoff);
    } else if step.Commit? {
      CommitProgresses(cfg, s, step, id);
    } else if step.FinishDuplicate? || step.ReadLedger? || step.GiveBack? || step.Renew? {
      RowWriteProgresses(cfg, s, step, id);
    } else {
      OtherStepsKeepRows(cfg, s, step);
    }
  }

  /**
   * The ledger is never rewritten, generations never go back, and a row that was purged never
   * reappears: redelivery of a delivered event stores nothing.
   */
  lemma {:induction false} RunProgresses(cfg: Config, s: World, run: seq<Step>, id: EventId)
    requires Inv(cfg, s) && IsRun(cfg, s, run)
    ensures Progressed(s, End(cfg, s, run), id)
    decreases |run|
  {
    hide Inv, CanStep, After;
    if run != [] {
      StepProgresses(cfg, s, run[0], id);
      StepKeepsInv(cfg, s, run[0]);
      RunProgresses(cfg, After(cfg, s, run[0]), run[1..], id);
    }
  }

  /** The same for every run from the start. */
  lemma EventsOnlyProgress(cfg: Config, clock: int, past: seq<Step>, later: seq<Step>, id: EventId)
    requires cfg.Valid() && IsRun(cfg, Initial(clock), past) && IsRun(cfg, End(cfg, Initial(clock), past), later)
    ensures Progressed(End(cfg, Initial(clock), past), End(cfg, End(cfg, Initial(clock), past), later), id)
  {
    ReachableInv(cfg, clock, past);
    hide Inv, IsRun, End, Progressed;
    RunProgresses(cfg, End(cfg, Initial(clock), past), later, id);
  }

  /**
   * A delivery is only ever recorded under the newest token of its event, and that token still names
   * the row, however long the recording transaction took.
   */
  lemma NoStaleOwnerRecords(cfg: Config, clock: int, run: seq<Step>, w: nat)
    requires cfg.Valid() && IsRun(cfg, Initial(clock), run)
    requires InPhase(End(cfg, Initial(clock), run), w, Writing) && cfg.inboxMode
    ensures var s := End(cfg, Initial(clock), run);
            var worker := s.workers[w];
            && worker.claim.Some? && Names(s.inbox, worker.claim.value)
            && worker.claim.value.eventId == worker.event.eventId
            && forall c :: c in s.issued && c.eventId == worker.event.eventId ==>
                  c.generation <= worker.claim.value.generation
  {
    ReachableInv(cfg, clock, run);
    var s := End(cfg, Initial(clock), run);
    hide Inv, IsRun, End;
    WorkerOwnsItsClaim(cfg, s, w);
    LockedIsClaimed(cfg, s, w);
    forall c | c in s.issued && c.eventId == s.workers[w].event.eventId
      ensures c.generation <= s.workers[w].claim.value.generation
    {
      IssuedToken(cfg, s, c);
    }
  }

  // ---- the inbox against the ledger

  lemma LedgerIsExact(catalogue: map<EventId, Event>, effects: Effects, orders: Orders)
    requires WellNumbered(catalogue) && LedgerOk(catalogue, effects, orders)
    ensures forall key, n :: Delivered(effects, key, n) <==> 1 <= n <= LastSequence(orders, key)
    ensures forall i, j :: i in effects && j in effects && SamePlace(effects[i], effects[j]) ==> i == j
  {
  }

  lemma OpenRowsAreAhead(catalogue: map<EventId, Event>, inbox: Inbox, effects: Effects, orders: Orders)
    requires WellNumbered(catalogue) && LedgerOk(catalogue, effects, orders)
    requires InboxOk(catalogue, inbox, effects, orders)
    ensures forall id :: id in inbox && inbox[id].state != DONE ==>
          inbox[id].event.sequence > LastSequence(orders, inbox[id].event.Key())
  {
    forall id | id in inbox && inbox[id].state != DONE
      ensures inbox[id].event.sequence > LastSequence(orders, inbox[id].event.Key())
    {
      assert RowOk(catalogue, effects, orders, id, inbox[id]);
      InLedger(catalogue, effects, orders, inbox[id].event);
    }
  }

  /**
   * A row is done exactly when its event is in the ledger, an open row waits for a sequence above the
   * last delivered one, so none is stranded, and the ledger holds exactly 1..last of every order.
   */
  lemma InboxAgreesWithLedger(cfg: Config, clock: int, run: seq<Step>)
    requires cfg.Valid() && IsRun(cfg, Initial(clock), run)
    ensures var s := End(cfg, Initial(clock), run);
            && (forall id :: id in s.inbox ==> (s.inbox[id].state == DONE <==> id in s.effects))
            && (forall id :: id in s.inbox && s.inbox[id].state != DONE ==>
                  s.inbox[id].event.sequence > LastSequence(s.orders, s.inbox[id].event.Key()))
            && (forall key, n :: Delivered(s.effects, key, n) <==> 1 <= n <= LastSequence(s.orders, key))
            && (forall i, j :: i in s.effects && j in s.effects && SamePlace(s.effects[i], s.effects[j]) ==> i == j)
  {
    ReachableInv(cfg, clock, run);
    var s := End(cfg, Initial(clock), run);
    hide TokensOk, WorkersOk, LocksOk, OrderOk, CallsOk, SellerOk, GapOk, OffsetsOk, CapacityOk, BudgetOk, IsRun, End;
    LedgerIsExact(cfg.catalogue, s.effects, s.orders);
    OpenRowsAreAhead(cfg.catalogue, s.inbox, s.effects, s.orders);
  }

  // ---- permits

  lemma TablesOfInv(cfg: Config, s: World)
    requires Inv(cfg, s)
    ensures TokensOk(cfg.catalogue, s.inbox, s.effects, s.issued) && DistinctTokens(s.issued)
    ensures InboxOk(cfg.catalogue, s.inbox, s.effects, s.orders) && cfg.Valid()
  {
    hide LedgerOk, InboxOk, WorkersOk, LocksOk, OrderOk, CallsOk, SellerOk, GapOk, OffsetsOk, CapacityOk, BudgetOk;
  }

  lemma ReleaseFreesOne(permits: Permits, issued: set<Claim>, c: Claim, d: Claim)
    requires DistinctTokens(issued) && c in issued && d in issued && c != d && HoldsPermit(permits, d)
    ensures HoldsPermit(Released(permits, c), d)
    ensures Released(permits, c)[Slot(d.sellerId, d.slot)] == permits[Slot(d.sellerId, d.slot)]
  {
  }

  /** Releasing a token, stale or not, leaves every other token's permit as it is. */
  lemma ReleaseFreesOnlyItsOwn(cfg: Config, clock: int, run: seq<Step>, c: Claim, d: Claim)
    requires cfg.Valid() && IsRun(cfg, Initial(clock), run)
    requires var s := End(cfg, Initial(clock), run);
          c in s.issued && d in s.issued && c != d && HoldsPermit(s.permits, d)
    ensures var s := End(cfg, Initial(clock), run);
            HoldsPermit(Released(s.permits, c), d)
              && Released(s.permits, c)[Slot(d.sellerId, d.slot)] == s.permits[Slot(d.sellerId, d.slot)]
  {
    ReachableInv(cfg, clock, run);
    hide Inv, TokensOk, InboxOk, WellNumbered, IsRun, End, HoldsPermit, Released, Initial, DistinctTokens;
    var s := End(cfg, Initial(clock), run);
    TablesOfInv(cfg, s);
    ReleaseFreesOne(s.permits, s.issued, c, d);
  }

  // ---- intake

  /** Every offset below the committed one is stored or delivered, and the row counts stay within their limits. */
  lemma NothingAcknowledgedIsLost(cfg: Config, clock: int, run: seq<Step>, p: int, o: nat)
    requires cfg.Valid() && IsRun(cfg, Initial(clock), run)
    requires o < Committed(End(cfg, Initial(clock), run), p)
    ensures var s := End(cfg, Initial(clock), run);
            && p in cfg.topic && o < |cfg.topic[p]| && Stored(s.inbox, s.effects, cfg.topic[p][o].eventId)
  {
    ReachableInv(cfg, clock, run);
    var s := End(cfg, Initial(clock), run);
    hide LedgerOk, InboxOk, TokensOk, WorkersOk, LocksOk, OrderOk, CallsOk, SellerOk, GapOk, CapacityOk, BudgetOk,
      WellNumbered, IsRun, End;
    assert StoredUpTo(cfg, s.inbox, s.effects, p, s.committed[p]);
  }

  lemma RowsStayWithinCapacity(cfg: Config, clock: int, run: seq<Step>)
    requires cfg.Valid() && IsRun(cfg, Initial(clock), run)
    ensures var s := End(cfg, Initial(clock), run);
            |PendingIds(s.inbox)| <= cfg.pendingLimit && |s.inbox| <= cfg.retainedLimit
  {
    ReachableInv(cfg, clock, run);
    hide LedgerOk, InboxOk, TokensOk, WorkersOk, LocksOk, OrderOk, CallsOk, SellerOk, GapOk, OffsetsOk, BudgetOk,
      WellNumbered, IsRun, End;
  }

  // ---- the retry budget

  /** Over everything ever admitted, no window of a seller's retries exceeds the budget. */
  lemma RetryBudgetHoldsAcrossInstances(cfg: Config, clock: int, run: seq<Step>, sellerId: SellerId, from: int)
    requires cfg.Valid() && IsRun(cfg, Initial(clock), run)
    ensures var s := End(cfg, Initial(clock), run);
            CountWithin(s.history, sellerId, from, from + cfg.limits.retryWindowMs) <= Max(cfg.limits.retryBudget, 0)
  {
    ReachableInv(cfg, clock, run);
    hide LedgerOk, InboxOk, TokensOk, WorkersOk, LocksOk, OrderOk, CallsOk, SellerOk, GapOk, OffsetsOk, CapacityOk,
      WellNumbered, IsRun, End;
  }

  lemma BudgetTables(cfg: Config, s: World)
    requires Inv(cfg, s)
    ensures BudgetOk(s.admissions, s.history, cfg.limits, s.clock)
  {
    hide LedgerOk, InboxOk, TokensOk, WorkersOk, LocksOk, OrderOk, CallsOk, SellerOk, GapOk, OffsetsOk, CapacityOk,
      WellNumbered, BudgetOk;
  }

  /**
   * What a claim counts in the table is what was ever admitted in the window, although old rows are deleted: its
   * answer that the budget is spent is right, not only safe.
   */
  lemma BudgetCountsEveryAdmission(cfg: Config, clock: int, run: seq<Step>, sellerId: SellerId, since: int)
    requires cfg.Valid() && IsRun(cfg, Initial(clock), run)
    requires since >= End(cfg, Initial(clock), run).clock - 10 * cfg.limits.retryWindowMs
    ensures var s := End(cfg, Initial(clock), run);
            CountSince(s.admissions, sellerId, since) == CountWithin(s.history, sellerId, since, s.clock)
  {
    hide Inv, IsRun, End, Config.Valid, Initial, CanStep, After;
    ReachableInv(cfg, clock, run);
    var s := End(cfg, Initial(clock), run);
    BudgetTables(cfg, s);
    SinceIsWithin(s.history, sellerId, since, s.clock);
  }
}
