/** Every step of the delivery protocol keeps the invariant. */
module DeliverySteps {
  import opened Domain
  import opened InboxTables
  import opened SellerApi
  import opened DeliveryProtocol
  import opened DeliveryInvariant
  import opened TableLemmas
  import opened IntakeLemmas
  import opened BudgetLemmas
  import opened SellerLemmas

  lemma PolledIsKnown(
    cfg: Config, positions: map<Cursor, nat>, instance: InstanceId, upto: map<int, nat>, records: seq<Record>)
    requires cfg.Valid() && IsPoll(cfg, positions, instance, upto, records)
    ensures forall r :: r in records ==> Known(cfg.catalogue, r.event)
  {
    forall r | r in records
      ensures Known(cfg.catalogue, r.event)
    {
      assert IsPolled(cfg, positions, instance, upto, r);
    }
  }

  lemma StoredPollKeepsInv(
    cfg: Config, s: World, instance: InstanceId, upto: map<int, nat>, records: seq<Record>, receivedAt: int,
    inbox: Inbox)
    requires Inv(cfg, s) && cfg.inboxMode && IsPoll(cfg, s.positions, instance, upto, records)
    requires StoreAll(s.inbox, s.effects, records, cfg.pendingLimit, cfg.retainedLimit, receivedAt) == Some(inbox)
    ensures Inv(cfg,
          s.(inbox := inbox, positions := Advanced(s.positions, instance, upto),
          acks := s.acks + {Ack(instance, upto)}))
  {
    hide StoreAll, IsPoll, LedgerOk, InboxOk, TokensOk, WorkersOk, OrderOk, CallsOk, SellerOk, GapOk, OffsetsOk,
      CapacityOk, BudgetOk, WellNumbered, Known, Advanced;
    PolledIsKnown(cfg, s.positions, instance, upto, records);
    StoreAllIsExact(s.inbox, s.effects, records, cfg.pendingLimit, cfg.retainedLimit, receivedAt);
    StoreKeepsCapacity(s.inbox, s.effects, records, cfg.pendingLimit, cfg.retainedLimit, receivedAt);
    StoreKeepsInbox(cfg.catalogue, s.inbox, s.effects, s.orders, s.issued, records, cfg.pendingLimit,
      cfg.retainedLimit, receivedAt);
    PollKeepsOffsets(cfg, s.inbox, s.effects, inbox, s.committed, s.positions, s.acks, instance, upto, records);
  }

  lemma PollKeepsInv(cfg: Config, s: World, step: Step)
    requires Inv(cfg, s) && CanStep(cfg, s, step) && step.Poll?
    ensures Inv(cfg, After(cfg, s, step))
  {
    hide Inv, IsPoll, StoreAll, Advanced;
    var after := StoreAll(s.inbox, s.effects, step.records, cfg.pendingLimit, cfg.retainedLimit, step.receivedAt);
    if after.Some? {
      StoredPollKeepsInv(cfg, s, step.instance, step.upto, step.records, step.receivedAt, after.value);
    }
  }

  // ---- claiming

  /** The token a successful claim hands out, and the tables' demands on it. */
  lemma ClaimKeepsTables(
    cfg: Config, s: World, e: Event, c: Claim, leaseUntil: int)
    requires WellNumbered(cfg.catalogue) && Known(cfg.catalogue, e)
    requires InboxOk(cfg.catalogue, s.inbox, s.effects, s.orders)
    requires CapacityOk(s.inbox, cfg.pendingLimit, cfg.retainedLimit)
    requires TokensOk(cfg.catalogue, s.inbox, s.effects, s.issued)
    requires e.eventId in s.inbox && s.inbox[e.eventId].state != DONE
    requires s.inbox[e.eventId].event.sequence == LastSequence(s.orders, s.inbox[e.eventId].event.Key()) + 1
    requires c.eventId == e.eventId && c.sellerId == e.sellerId && c.generation == s.inbox[e.eventId].generation + 1
    ensures var inbox := s.inbox[e.eventId := ClaimedRow(s.inbox[e.eventId], c, leaseUntil)];
            && InboxOk(cfg.catalogue, inbox, s.effects, s.orders)
            && CapacityOk(inbox, cfg.pendingLimit, cfg.retainedLimit)
            && TokensOk(cfg.catalogue, inbox, s.effects, s.issued + {c})
            && c !in s.issued
  {
    RowWriteKeepsCapacity(s.inbox, cfg.pendingLimit, cfg.retainedLimit, e.eventId,
      ClaimedRow(s.inbox[e.eventId], c, leaseUntil));
    ClaimKeepsTokens(cfg.catalogue, s.inbox, s.effects, s.issued, c, leaseUntil);
    assert RowOk(cfg.catalogue, s.effects, s.orders, e.eventId, s.inbox[e.eventId]);
  }

  lemma ClaimKeepsLocks(inbox: Inbox, workers: map<nat, Worker>, w: nat, worker: Worker, row: Row)
    requires LocksOk(inbox, workers) && w !in workers && worker.phase == Ready
    requires !RowLocked(workers, worker.event.eventId)
    requires forall v :: v in workers && workers[v].claim.Some? ==>
          workers[v].claim.value.eventId == workers[v].event.eventId
    ensures LocksOk(inbox[worker.event.eventId := row], workers[w := worker])
  {
    forall v | v in workers && workers[v].Locks()
      ensures workers[v].claim.value.eventId != worker.event.eventId
    {
    }
  }

  lemma ClaimKeepsWorkers(cfg: Config, s: World, w: nat, instance: InstanceId, e: Event, c: Claim, row: Row)
    requires WorkersOk(cfg.catalogue, cfg.inboxMode, s.issued, s.effects, s.workers) && LocksOk(s.inbox, s.workers)
    requires OrderOk(s.orders, s.workers, s.requests) && CallsOk(cfg.catalogue, s.workers, s.requests, s.seller)
    requires cfg.inboxMode && w !in s.workers && Known(cfg.catalogue, e)
    requires c.eventId == e.eventId && e.eventId in s.inbox && !RowLocked(s.workers, e.eventId)
    ensures var workers := s.workers[w := Worker(instance, e, Some(c), Ready)];
            && WorkersOk(cfg.catalogue, cfg.inboxMode, s.issued + {c}, s.effects, workers)
            && LocksOk(s.inbox[e.eventId := row], workers)
            && OrderOk(s.orders, workers, s.requests)
            && CallsOk(cfg.catalogue, workers, s.requests, s.seller)
  {
    hide Known, RowLocked, LocksOk, LastSequence;
    ClaimKeepsLocks(s.inbox, s.workers, w, Worker(instance, e, Some(c), Ready), row);
  }

  lemma ClaimKeepsBudget(cfg: Config, s: World, e: Event, at: ClaimClock, retry: bool)
    requires BudgetOk(s.admissions, s.history, cfg.limits, s.clock) && s.clock <= at.row && at.Ordered()
    requires retry ==>
          CountSince(s.admissions, e.sellerId, at.count - cfg.limits.retryWindowMs) < cfg.limits.retryBudget
    ensures var admitted := if retry then [Admission(e.sellerId, e.eventId, at.admit)] else [];
            BudgetOk(s.admissions + admitted, s.history + admitted, cfg.limits, at.permit)
  {
    if retry {
      AdmitKeepsBudget(s.admissions, s.history, cfg.limits, s.clock, Admission(e.sellerId, e.eventId, at.admit),
        at.count, at.permit);
    } else {
      assert s.admissions + [] == s.admissions && s.history + [] == s.history;
    }
  }

  lemma GrantStep(cfg: Config, s: World, step: Step, permits: Permits)
    requires CanStep(cfg, s, step) && step.TryClaim?
    requires permits == EnsuredPermits(cfg, s, step.event.sellerId, step.cached)
    requires ClaimEnds(s.inbox, permits, s.admissions, s.orders, step.event, cfg.limits, step.at, step.appNow,
          RowLocked(s.workers, step.event.eventId)) == Claimed
    ensures step.event.eventId in s.inbox
            && FirstFree(permits, step.event.sellerId, 1, cfg.limits.sellerPermits, step.at.permits).Some?
    ensures After(cfg, s, step) ==
      Granted(cfg.limits, s, step.w, step.event,
        ClaimToken(s.inbox, permits, step.event, step.instance, cfg.limits, step.at), permits, step.at)
  {
    hide CanStep, After, Granted, RowLocked, FirstFree, ClaimEnds;
    ClaimStep(cfg, s, step);
    ClaimedRowExists(s.inbox, permits, s.admissions, s.orders, step.event, cfg.limits, step.at, step.appNow,
      RowLocked(s.workers, step.event.eventId));
  }

  lemma GrantKeepsInv(cfg: Config, s: World, step: Step, permits: Permits)
    requires Inv(cfg, s) && CanStep(cfg, s, step) && step.TryClaim?
    requires permits == EnsuredPermits(cfg, s, step.event.sellerId, step.cached)
    requires ClaimEnds(s.inbox, permits, s.admissions, s.orders, step.event, cfg.limits, step.at, step.appNow,
          RowLocked(s.workers, step.event.eventId)) == Claimed
    ensures Inv(cfg, After(cfg, s, step))
  {
    hide CanStep, After, ClaimEnds, EnsuredPermits, Known, RowLocked, CountSince, FirstFree, LedgerOk, InboxOk,
      TokensOk, WorkersOk, LocksOk, OrderOk, CallsOk, SellerOk, GapOk, OffsetsOk, CapacityOk, BudgetOk;
    var e, at := step.event, step.at;
    ClaimStep(cfg, s, step);
    GrantStep(cfg, s, step, permits);
    ClaimedRowExists(s.inbox, permits, s.admissions, s.orders, e, cfg.limits, at, step.appNow,
      RowLocked(s.workers, e.eventId));
    var c := ClaimToken(s.inbox, permits, e, step.instance, cfg.limits, at);
    var leaseUntil := at.inbox + cfg.limits.leaseMs;
    ClaimKeepsTables(cfg, s, e, c, leaseUntil);
    ClaimKeepsWorkers(cfg, s, step.w, step.instance, e, c, ClaimedRow(s.inbox[e.eventId], c, leaseUntil));
    ClaimKeepsBudget(cfg, s, e, at, c.retry);
    KeepsOffsets(cfg, s.inbox, s.effects, After(cfg, s, step).inbox, s.effects, s.committed, s.positions, s.acks);
  }

  lemma ClaimKeepsInv(cfg: Config, s: World, step: Step)
    requires Inv(cfg, s) && CanStep(cfg, s, step) && step.TryClaim?
    ensures Inv(cfg, After(cfg, s, step))
  {
    hide CanStep, After, EnsuredPermits, ClaimEnds, Known, RowLocked, LedgerOk, InboxOk, TokensOk, WorkersOk, LocksOk,
      OrderOk, CallsOk, SellerOk, GapOk, OffsetsOk, CapacityOk, BudgetOk;
    var e, at := step.event, step.at;
    var permits := EnsuredPermits(cfg, s, e.sellerId, step.cached);
    ClaimStep(cfg, s, step);
    if ClaimEnds(s.inbox, permits, s.admissions, s.orders, e, cfg.limits, at, step.appNow,
      RowLocked(s.workers, e.eventId)) == Claimed {
      GrantKeepsInv(cfg, s, step, permits);
    } else {
      TimeKeepsBudget(s.admissions, s.history, cfg.limits, s.clock, at.permit);
    }
  }

  // ---- workers

  /** What the invariant asks of a worker that enters a phase. */
  ghost predicate MayEnter(s: World, w: nat, phase: Phase)
    requires w in s.workers
  {
    var e, claim := s.workers[w].event, s.workers[w].claim;
    && (phase.Duplicate? ==> e.eventId in s.effects)
    && (Cleared(phase) ==> e.sequence <= LastSequence(s.orders, e.Key()) + 1)
    && (Accepted(phase) ==> e.eventId in s.seller.effects)
    && (phase.Calling? ==> phase.request in s.requests && s.requests[phase.request].event == e)
    && (s.workers[w].(phase := phase).Locks() && !s.workers[w].Locks() ==>
          Names(s.inbox, claim.value) && s.inbox[claim.value.eventId].state == CLAIMED
            && !RowLocked(s.workers, e.eventId))
  }

  lemma MovedKeepsLocks(s: World, w: nat, phase: Phase)
    requires LocksOk(s.inbox, s.workers) && w in s.workers && MayEnter(s, w, phase)
    ensures LocksOk(s.inbox, Moved(s, w, phase).workers)
  {
    var workers := Moved(s, w, phase).workers;
    forall u, v | u in workers && v in workers && SameLock(workers[u], workers[v])
      ensures u == v
    {
      assert u != w ==> workers[u] == s.workers[u];
      assert v != w ==> workers[v] == s.workers[v];
    }
  }

  lemma MovedKeepsWorkers(cfg: Config, s: World, w: nat, phase: Phase)
    requires WorkersOk(cfg.catalogue, cfg.inboxMode, s.issued, s.effects, s.workers)
    requires OrderOk(s.orders, s.workers, s.requests)
    requires w in s.workers && MayEnter(s, w, phase)
    ensures var workers := s.workers[w := s.workers[w].(phase := phase)];
            WorkersOk(cfg.catalogue, cfg.inboxMode, s.issued, s.effects, workers)
              && OrderOk(s.orders, workers, s.requests)
  {
    hide RowLocked, Names, Known;
  }

  lemma MovedKeepsCalls(cfg: Config, s: World, w: nat, phase: Phase)
    requires CallsOk(cfg.catalogue, s.workers, s.requests, s.seller) && w in s.workers && MayEnter(s, w, phase)
    ensures CallsOk(cfg.catalogue, s.workers[w := s.workers[w].(phase := phase)], s.requests, s.seller)
  {
    hide RowLocked, Names, Known, Cleared;
  }

  lemma MovedKeepsInv(cfg: Config, s: World, w: nat, phase: Phase)
    requires Inv(cfg, s) && w in s.workers && MayEnter(s, w, phase)
    ensures Inv(cfg, Moved(s, w, phase))
  {
    hide LedgerOk, InboxOk, TokensOk, WorkersOk, LocksOk, OrderOk, CallsOk, SellerOk, GapOk, OffsetsOk, CapacityOk,
      BudgetOk, WellNumbered, MayEnter;
    MovedKeepsLocks(s, w, phase);
    MovedKeepsWorkers(cfg, s, w, phase);
    MovedKeepsCalls(cfg, s, w, phase);
  }

  lemma FewerWorkersKeepTables(cfg: Config, s: World, workers: map<nat, Worker>)
    requires WorkersOk(cfg.catalogue, cfg.inboxMode, s.issued, s.effects, s.workers) && LocksOk(s.inbox, s.workers)
    requires OrderOk(s.orders, s.workers, s.requests) && CallsOk(cfg.catalogue, s.workers, s.requests, s.seller)
    requires forall w :: w in workers ==> w in s.workers && workers[w] == s.workers[w]
    ensures WorkersOk(cfg.catalogue, cfg.inboxMode, s.issued, s.effects, workers) && LocksOk(s.inbox, workers)
    ensures OrderOk(s.orders, workers, s.requests) && CallsOk(cfg.catalogue, workers, s.requests, s.seller)
  {
    hide Known, Names, LastSequence;
  }

  lemma FewerWorkersKeepInv(cfg: Config, s: World, workers: map<nat, Worker>)
    requires Inv(cfg, s) && forall w :: w in workers ==> w in s.workers && workers[w] == s.workers[w]
    ensures Inv(cfg, s.(workers := workers))
  {
    hide LedgerOk, InboxOk, TokensOk, WorkersOk, LocksOk, OrderOk, CallsOk, SellerOk, GapOk, OffsetsOk, CapacityOk,
      BudgetOk, WellNumbered;
    FewerWorkersKeepTables(cfg, s, workers);
  }

  lemma GoneKeepsInv(cfg: Config, s: World, w: nat)
    requires Inv(cfg, s)
    ensures Inv(cfg, Gone(s, w))
  {
    hide Inv;
    FewerWorkersKeepInv(cfg, s, s.workers - {w});
  }

  lemma NewWorkerKeepsTables(cfg: Config, s: World, w: nat, worker: Worker)
    requires WorkersOk(cfg.catalogue, cfg.inboxMode, s.issued, s.effects, s.workers) && LocksOk(s.inbox, s.workers)
    requires OrderOk(s.orders, s.workers, s.requests) && CallsOk(cfg.catalogue, s.workers, s.requests, s.seller)
    requires w !in s.workers && worker.phase == Ready && worker.claim == None && !cfg.inboxMode
    requires Known(cfg.catalogue, worker.event)
    ensures var workers := s.workers[w := worker];
            && WorkersOk(cfg.catalogue, cfg.inboxMode, s.issued, s.effects, workers) && LocksOk(s.inbox, workers)
            && OrderOk(s.orders, workers, s.requests) && CallsOk(cfg.catalogue, workers, s.requests, s.seller)
  {
    hide Names;
  }

  lemma NewWorkerKeepsInv(cfg: Config, s: World, w: nat, worker: Worker)
    requires Inv(cfg, s) && w !in s.workers && worker.phase == Ready && worker.claim == None && !cfg.inboxMode
    requires Known(cfg.catalogue, worker.event)
    ensures Inv(cfg, s.(workers := s.workers[w := worker]))
  {
    hide LedgerOk, InboxOk, TokensOk, WorkersOk, LocksOk, OrderOk, CallsOk, SellerOk, GapOk, OffsetsOk, CapacityOk,
      BudgetOk, WellNumbered;
    NewWorkerKeepsTables(cfg, s, w, worker);
  }

  lemma NewRequestKeepsInv(cfg: Config, s: World, r: nat, e: Event)
    requires Inv(cfg, s) && r !in s.requests && Known(cfg.catalogue, e)
    requires e.sequence <= LastSequence(s.orders, e.Key()) + 1
    ensures Inv(cfg, s.(requests := s.requests[r := Request(e, Travelling)]))
  {
    hide LedgerOk, InboxOk, TokensOk, WorkersOk, LocksOk, SellerOk, GapOk, OffsetsOk, CapacityOk, BudgetOk,
      WellNumbered;
  }

  lemma ForgetKeepsInv(cfg: Config, s: World, positions: map<Cursor, nat>, acks: set<Ack>)
    requires Inv(cfg, s) && acks <= s.acks
    requires forall k :: k in positions ==> k in s.positions && positions[k] == s.positions[k]
    ensures Inv(cfg, s.(positions := positions, acks := acks))
  {
    hide LedgerOk, InboxOk, TokensOk, WorkersOk, LocksOk, OrderOk, CallsOk, SellerOk, GapOk, StoredUpTo, CapacityOk,
      BudgetOk, WellNumbered;
  }

  lemma TimeKeepsInv(cfg: Config, s: World, later: int)
    requires Inv(cfg, s) && s.clock <= later
    ensures Inv(cfg, s.(clock := later))
  {
    TimeKeepsBudget(s.admissions, s.history, cfg.limits, s.clock, later);
    hide LedgerOk, InboxOk, TokensOk, WorkersOk, LocksOk, OrderOk, CallsOk, SellerOk, GapOk, OffsetsOk, CapacityOk,
      BudgetOk;
  }

  lemma PermitsKeepInv(cfg: Config, s: World, permits: Permits)
    requires Inv(cfg, s)
    ensures Inv(cfg, s.(permits := permits))
  {
    hide LedgerOk, InboxOk, TokensOk, WorkersOk, LocksOk, OrderOk, CallsOk, SellerOk, GapOk, OffsetsOk, CapacityOk,
      BudgetOk;
  }

  lemma CheckKeepsInv(cfg: Config, s: World, step: Step)
    requires Inv(cfg, s) && CanStep(cfg, s, step) && (step.CheckDelivered? || step.CheckPredecessor?)
    ensures Inv(cfg, After(cfg, s, step))
  {
    hide Inv;
    var e := s.workers[step.w].event;
    if step.CheckDelivered? {
      MovedKeepsInv(cfg, s, step.w, if e.eventId in s.effects then Duplicate else Undelivered);
    } else {
      MovedKeepsInv(cfg, s, step.w, if LastSequence(s.orders, e.Key()) + 1 != e.sequence then Failed else Checked);
    }
  }

  lemma FailKeepsInv(cfg: Config, s: World, step: Step)
    requires Inv(cfg, s) && CanStep(cfg, s, step) && step.Fail?
    ensures Inv(cfg, After(cfg, s, step))
  {
    hide Inv;
    MovedKeepsInv(cfg, s, step.w, Failed);
  }

  lemma AbandonKeepsInv(cfg: Config, s: World, step: Step)
    requires Inv(cfg, s) && CanStep(cfg, s, step) && step.Abandon?
    ensures Inv(cfg, After(cfg, s, step))
  {
    hide Inv;
    GoneKeepsInv(cfg, s, step.w);
  }

  lemma ReceiveKeepsInv(cfg: Config, s: World, step: Step)
    requires Inv(cfg, s) && CanStep(cfg, s, step) && step.Receive?
    ensures Inv(cfg, After(cfg, s, step))
  {
    hide CanStep, After, LedgerOk, InboxOk, TokensOk, LocksOk, SellerOk, GapOk, OffsetsOk, CapacityOk, BudgetOk,
      WellNumbered;
    ReceiveStep(cfg, s, step);
    var w := step.w;
    var r := s.workers[w].phase.request;
    assert s.requests[r].event == s.workers[w].event;
    assert s.requests[r].stage.status == OK ==> s.workers[w].event.eventId in s.seller.effects;
    assert s.workers[w].event.sequence <= LastSequence(s.orders, s.workers[w].event.Key()) + 1;
    hide Inv;
    MovedKeepsInv(cfg, s, w, if s.requests[r].stage.status == OK then Succeeded else Failed);
  }

  lemma StartKeepsInv(cfg: Config, s: World, step: Step)
    requires Inv(cfg, s) && CanStep(cfg, s, step) && step.Start?
    ensures Inv(cfg, After(cfg, s, step))
  {
    hide Inv;
    NewWorkerKeepsInv(cfg, s, step.w, Worker(step.instance, step.event, None, Ready));
  }

  lemma CrashKeepsInv(cfg: Config, s: World, step: Step)
    requires Inv(cfg, s) && CanStep(cfg, s, step) && step.Crash?
    ensures Inv(cfg, After(cfg, s, step))
  {
    hide Inv;
    var after := AfterCrash(s, step.instance);
    FewerWorkersKeepInv(cfg, s, after.workers);
    ForgetKeepsInv(cfg, s.(workers := after.workers), after.positions, after.acks);
  }

  // ---- calls

  lemma SendKeepsInv(cfg: Config, s: World, step: Step)
    requires Inv(cfg, s) && CanStep(cfg, s, step) && step.Send?
    ensures Inv(cfg, After(cfg, s, step))
  {
    hide LedgerOk, InboxOk, TokensOk, LocksOk, CallsOk, SellerOk, GapOk, OffsetsOk, CapacityOk, BudgetOk,
      WellNumbered;
    var w, r := step.w, step.request;
    var e := s.workers[w].event;
    assert Known(cfg.catalogue, e) && e.sequence <= LastSequence(s.orders, e.Key()) + 1;
    hide Inv;
    NewRequestKeepsInv(cfg, s, r, e);
    MovedKeepsInv(cfg, s.(requests := s.requests[r := Request(e, Travelling)]), w, Calling(r));
  }

  lemma ArriveKeepsInv(cfg: Config, s: World, step: Step)
    requires Inv(cfg, s) && CanStep(cfg, s, step) && step.Arrive?
    ensures Inv(cfg, After(cfg, s, step))
  {
    hide CanStep, After, LedgerOk, InboxOk, TokensOk, WorkersOk, LocksOk, SellerOk, GapOk, OffsetsOk, CapacityOk,
      BudgetOk, WellNumbered, Known;
    ArriveStep(cfg, s, step);
    ArriveKeepsSeller(cfg.catalogue, s.seller, s.requests[step.request].event);
  }

  lemma DecideKeepsCalls(
    catalogue: map<EventId, Event>, workers: map<nat, Worker>, requests: map<nat, Request>, seller: Seller,
    seller': Seller, r: nat, status: int, lost: bool)
    requires CallsOk(catalogue, workers, requests, seller) && r in requests
    requires |seller'.attempts| == |seller.attempts| && forall id :: id in seller.effects ==> id in seller'.effects
    requires status == OK ==> requests[r].event.eventId in seller'.effects
    ensures CallsOk(catalogue, workers, requests[r := requests[r].(stage := Answered(status, lost))], seller')
  {
  }

  lemma DecideKeepsInv(cfg: Config, s: World, step: Step)
    requires Inv(cfg, s) && CanStep(cfg, s, step) && step.Decide?
    ensures Inv(cfg, After(cfg, s, step))
  {
    hide CanStep, After, LedgerOk, InboxOk, TokensOk, WorkersOk, LocksOk, SellerOk, GapOk, OffsetsOk, CapacityOk,
      BudgetOk, WellNumbered;
    DecideStep(cfg, s, step);
    var e, stage := s.requests[step.request].event, s.requests[step.request].stage;
    DecideKeepsSeller(cfg.catalogue, s.orders, s.seller, e, stage.count, stage.attempt, step.policy);
    hide CallsOk, Decided, Status, Dropped;
    DecideKeepsCalls(cfg.catalogue, s.workers, s.requests, s.seller,
      Decided(s.seller, e, stage.count, stage.attempt, step.policy), step.request,
                     Status(s.seller, e, stage.count, step.policy), Dropped(s.seller, e, stage.count, step.policy));
  }

  // ---- recording and giving back

  lemma WorkerOwnsItsClaim(cfg: Config, s: World, w: nat)
    requires Inv(cfg, s) && w in s.workers
    ensures Known(cfg.catalogue, s.workers[w].event)
    ensures s.workers[w].claim.Some? ==>
          s.workers[w].claim.value in s.issued && s.workers[w].claim.value.eventId == s.workers[w].event.eventId
    ensures s.workers[w].phase.Duplicate? ==> s.workers[w].event.eventId in s.effects
    ensures Cleared(s.workers[w].phase) ==>
          s.workers[w].event.sequence <= LastSequence(s.orders, s.workers[w].event.Key()) + 1
    ensures Accepted(s.workers[w].phase) ==> s.workers[w].event.eventId in s.seller.effects
    ensures s.workers[w].claim.Some? <==> cfg.inboxMode
    ensures s.workers[w].claim == None ==> s.inbox == map[]
  {
    hide LedgerOk, InboxOk, TokensOk, LocksOk, SellerOk, GapOk, OffsetsOk, CapacityOk, BudgetOk, WellNumbered;
  }

  /** A token of a delivered event names no row, so it holds nothing. */
  lemma DeliveredIsUnclaimed(cfg: Config, s: World, c: Claim)
    requires Inv(cfg, s) && c.eventId in s.effects
    ensures !Names(s.inbox, c)
  {
    hide LedgerOk, TokensOk, WorkersOk, LocksOk, OrderOk, CallsOk, SellerOk, GapOk, OffsetsOk, CapacityOk, BudgetOk,
      WellNumbered;
    if Names(s.inbox, c) {
      ClaimedIsUndelivered(cfg.catalogue, s.inbox, s.effects, s.orders, c);
    }
  }

  lemma DuplicateKeepsInv(cfg: Config, s: World, step: Step)
    requires Inv(cfg, s) && CanStep(cfg, s, step) && step.FinishDuplicate?
    ensures Inv(cfg, After(cfg, s, step))
  {
    hide Inv, CanStep, After, RowLocked, Released;
    DuplicateStep(cfg, s, step);
    var clock := Max(s.clock, step.now);
    WorkerOwnsItsClaim(cfg, s, step.w);
    GoneKeepsInv(cfg, s, step.w);
    TimeKeepsInv(cfg, Gone(s, step.w), clock);
    if s.workers[step.w].claim.Some? {
      var c := s.workers[step.w].claim.value;
      DeliveredIsUnclaimed(cfg, s, c);
      PermitsKeepInv(cfg, Gone(s, step.w).(clock := clock), Released(s.permits, c));
    }
  }

  lemma LockKeepsInv(cfg: Config, s: World, step: Step)
    requires Inv(cfg, s) && CanStep(cfg, s, step) && step.LockRow?
    ensures Inv(cfg, After(cfg, s, step))
  {
    hide Inv, CanStep, After;
    LockStep(cfg, s, step);
    var w, clock := step.w, Max(s.clock, step.now);
    WorkerOwnsItsClaim(cfg, s, w);
    if s.workers[w].claim == None || Holds(s.inbox, s.workers[w].claim.value, step.now) {
      MovedKeepsInv(cfg, s, w, Locked);
      TimeKeepsInv(cfg, Moved(s, w, Locked), clock);
    } else {
      GoneKeepsInv(cfg, s, w);
      TimeKeepsInv(cfg, Gone(s, w), clock);
    }
  }

  lemma LockedIsClaimed(cfg: Config, s: World, w: nat)
    requires Inv(cfg, s) && w in s.workers && s.workers[w].Locks()
    ensures Names(s.inbox, s.workers[w].claim.value)
  {
    hide LedgerOk, InboxOk, TokensOk, WorkersOk, OrderOk, CallsOk, SellerOk, GapOk, OffsetsOk, CapacityOk, BudgetOk,
      WellNumbered;
  }

  lemma ReadKeepsInv(cfg: Config, s: World, step: Step)
    requires Inv(cfg, s) && CanStep(cfg, s, step) && step.ReadLedger?
    ensures Inv(cfg, After(cfg, s, step))
  {
    hide Inv, CanStep, After;
    ReadStep(cfg, s, step);
    var w := step.w;
    WorkerOwnsItsClaim(cfg, s, w);
    if s.workers[w].claim.Some? {
      LockedIsClaimed(cfg, s, w);
      if s.workers[w].event.eventId in s.effects {
        DeliveredIsUnclaimed(cfg, s, s.workers[w].claim.value);
      }
    }
    if s.workers[w].event.eventId in s.effects {
      GoneKeepsInv(cfg, s, w);
    } else if LastSequence(s.orders, s.workers[w].event.Key()) + 1 != s.workers[w].event.sequence {
      MovedKeepsInv(cfg, s, w, Failed);
    } else {
      MovedKeepsInv(cfg, s, w, Writing);
    }
  }

  /** Last sequences only grow, so whatever was cleared stays cleared. */
  lemma RecordKeepsOrder(orders: Orders, workers: map<nat, Worker>, requests: map<nat, Request>, e: Event)
    requires OrderOk(orders, workers, requests) && e.sequence == LastSequence(orders, e.Key()) + 1
    ensures OrderOk(orders[e.Key() := e.Latest()], workers, requests)
  {
    assert forall key :: LastSequence(orders[e.Key() := e.Latest()], key) >= LastSequence(orders, key);
  }

  lemma RecordKeepsGap(catalogue: map<EventId, Event>, orders: Orders, seller: Seller, e: Event)
    requires WellNumbered(catalogue) && SellerOk(catalogue, seller) && GapOk(orders, seller.orders)
    requires Known(catalogue, e)
    requires e.sequence == LastSequence(orders, e.Key()) + 1 && e.eventId in seller.effects
    ensures GapOk(orders[e.Key() := e.Latest()], seller.orders)
  {
    InLedger(catalogue, seller.effects, seller.orders, e);
  }

  lemma GrowthKeepsTokens(catalogue: map<EventId, Event>, inbox: Inbox, effects: Effects, issued: set<Claim>, e: Event)
    requires TokensOk(catalogue, inbox, effects, issued)
    ensures TokensOk(catalogue, inbox, effects[e.eventId := e], issued)
  {
    assert forall c :: TokenOk(catalogue, inbox, effects, c) ==> TokenOk(catalogue, inbox, effects[e.eventId := e], c);
  }

  lemma RecordKeepsTokens(
    catalogue: map<EventId, Event>, inbox: Inbox, effects: Effects, orders: Orders, issued: set<Claim>, e: Event,
    c: Claim, doneAt: int)
    requires TokensOk(catalogue, inbox, effects, issued) && Names(inbox, c) && c.eventId == e.eventId
    ensures TokensOk(catalogue, Completed(inbox, c, doneAt), effects[e.eventId := e], issued)
  {
    var row := inbox[c.eventId].(state := DONE, doneAt := Some(doneAt), owner := None, leaseUntil := 0);
    RowWriteKeepsTokens(catalogue, inbox, effects, issued, c.eventId, row);
    GrowthKeepsTokens(catalogue, inbox[c.eventId := row], effects, issued, e);
  }

  lemma RowWriteKeepsLocks(
    inbox: Inbox, workers: map<nat, Worker>, catalogue: map<EventId, Event>, inboxMode: bool, issued: set<Claim>,
    effects: Effects, id: EventId, row: Row)
    requires LocksOk(inbox, workers) && WorkersOk(catalogue, inboxMode, issued, effects, workers)
    requires !RowLocked(workers, id)
    ensures LocksOk(inbox[id := row], workers)
  {
  }

  lemma RecordKeepsInv(cfg: Config, s: World, e: Event, c: Claim, doneAt: int)
    requires Inv(cfg, s) && Known(cfg.catalogue, e) && e.sequence == LastSequence(s.orders, e.Key()) + 1
    requires e.eventId in s.seller.effects
    requires c in s.issued && c.eventId == e.eventId && Names(s.inbox, c) && !RowLocked(s.workers, e.eventId)
    ensures Inv(cfg,
          s.(effects := s.effects[e.eventId := e], orders := s.orders[e.Key() := e.Latest()],
          inbox := Completed(s.inbox, c, doneAt)))
  {
    hide LedgerOk, InboxOk, TokensOk, LocksOk, OrderOk, CallsOk, SellerOk, GapOk, OffsetsOk, CapacityOk, BudgetOk,
      WellNumbered, Known;
    var row := s.inbox[c.eventId].(state := DONE, doneAt := Some(doneAt), owner := None, leaseUntil := 0);
    RecordKeepsLedger(cfg.catalogue, s.effects, s.orders, e);
    RecordKeepsInbox(cfg.catalogue, s.inbox, s.effects, s.orders, e, c, doneAt);
    RecordKeepsTokens(cfg.catalogue, s.inbox, s.effects, s.orders, s.issued, e, c, doneAt);
    RowWriteKeepsLocks(s.inbox, s.workers, cfg.catalogue, cfg.inboxMode, s.issued, s.effects, c.eventId, row);
    RecordKeepsOrder(s.orders, s.workers, s.requests, e);
    RecordKeepsGap(cfg.catalogue, s.orders, s.seller, e);
    KeepsOffsets(cfg, s.inbox, s.effects, Completed(s.inbox, c, doneAt), s.effects[e.eventId := e], s.committed,
      s.positions, s.acks);
    RowWriteKeepsCapacity(s.inbox, cfg.pendingLimit, cfg.retainedLimit, c.eventId, row);
  }

  /** Without an inbox the ledger alone is written. */
  lemma RecordDirectKeepsInv(cfg: Config, s: World, e: Event)
    requires Inv(cfg, s) && Known(cfg.catalogue, e) && e.sequence == LastSequence(s.orders, e.Key()) + 1
    requires e.eventId in s.seller.effects
    requires s.inbox == map[]
    ensures Inv(cfg, s.(effects := s.effects[e.eventId := e], orders := s.orders[e.Key() := e.Latest()]))
  {
    hide LedgerOk, TokensOk, LocksOk, OrderOk, CallsOk, SellerOk, GapOk, OffsetsOk, CapacityOk, BudgetOk,
      WellNumbered, Known;
    RecordKeepsLedger(cfg.catalogue, s.effects, s.orders, e);
    GrowthKeepsTokens(cfg.catalogue, s.inbox, s.effects, s.issued, e);
    RecordKeepsOrder(s.orders, s.workers, s.requests, e);
    RecordKeepsGap(cfg.catalogue, s.orders, s.seller, e);
    KeepsOffsets(cfg, s.inbox, s.effects, s.inbox, s.effects[e.eventId := e], s.committed, s.positions, s.acks);
  }

  lemma OnlyLock(cfg: Config, s: World, w: nat)
    requires Inv(cfg, s) && w in s.workers && s.workers[w].Locks()
    ensures !RowLocked(Gone(s, w).workers, s.workers[w].event.eventId)
  {
    hide LedgerOk, InboxOk, TokensOk, WorkersOk, OrderOk, CallsOk, SellerOk, GapOk, OffsetsOk, CapacityOk, BudgetOk,
      WellNumbered;
    forall v | v in s.workers && s.workers[v].Locks() && s.workers[v].event.eventId == s.workers[w].event.eventId
      ensures v == w
    {
      assert SameLock(s.workers[v], s.workers[w]);
    }
  }

  lemma NotCollidingIsNext(cfg: Config, s: World, e: Event)
    requires Inv(cfg, s) && Known(cfg.catalogue, e) && e.sequence <= LastSequence(s.orders, e.Key()) + 1
    ensures Collides(s.effects, e) <==> e.eventId in s.effects
    ensures Collides(s.effects, e) <==> e.sequence != LastSequence(s.orders, e.Key()) + 1
  {
    hide InboxOk, TokensOk, WorkersOk, LocksOk, OrderOk, CallsOk, SellerOk, GapOk, OffsetsOk, CapacityOk, BudgetOk;
    InLedger(cfg.catalogue, s.effects, s.orders, e);
  }

  lemma CommitClaimedKeepsInv(cfg: Config, s: World, w: nat, doneAt: int)
    requires Inv(cfg, s) && InPhase(s, w, Writing) && s.workers[w].claim.Some?
    requires !Collides(s.effects, s.workers[w].event)
    ensures Inv(cfg, AfterCommit(s, w, doneAt))
  {
    hide Inv, Known, Collides;
    var e, c := s.workers[w].event, s.workers[w].claim.value;
    WorkerOwnsItsClaim(cfg, s, w);
    NotCollidingIsNext(cfg, s, e);
    LockedIsClaimed(cfg, s, w);
    OnlyLock(cfg, s, w);
    GoneKeepsInv(cfg, s, w);
    RecordKeepsInv(cfg, Gone(s, w), e, c, doneAt);
    var mid := Gone(s, w).(effects := s.effects[e.eventId := e], orders := s.orders[e.Key() := e.Latest()],
      inbox := Completed(s.inbox, c, doneAt));
    PermitsKeepInv(cfg, mid, Released(s.permits, c));
    assert AfterCommit(s, w, doneAt) == mid.(permits := Released(s.permits, c));
  }

  lemma CommitKeepsInv(cfg: Config, s: World, step: Step)
    requires Inv(cfg, s) && CanStep(cfg, s, step) && step.Commit?
    ensures Inv(cfg, After(cfg, s, step))
  {
    hide Inv, CanStep, After, Known, Collides;
    CommitStep(cfg, s, step);
    var w := step.w;
    var e := s.workers[w].event;
    WorkerOwnsItsClaim(cfg, s, w);
    NotCollidingIsNext(cfg, s, e);
    if Collides(s.effects, e) {
      MovedKeepsInv(cfg, s, w, Failed);
    } else if s.workers[w].claim.Some? {
      CommitClaimedKeepsInv(cfg, s, w, step.doneAt);
    } else {
      GoneKeepsInv(cfg, s, w);
      RecordDirectKeepsInv(cfg, Gone(s, w), e);
    }
  }

  lemma UnclaimKeepsInv(cfg: Config, s: World, c: Claim, now: int, nextAt: int)
    requires Inv(cfg, s) && Holds(s.inbox, c, now) && !RowLocked(s.workers, c.eventId)
    ensures Inv(cfg, s.(inbox := GivenBack(s.inbox, c, now, nextAt)))
  {
    hide LedgerOk, TokensOk, LocksOk, OrderOk, CallsOk, SellerOk, GapOk, OffsetsOk, CapacityOk, BudgetOk,
      WellNumbered, Known;
    var row := s.inbox[c.eventId].(state := PENDING, owner := None, leaseUntil := 0, nextAt := nextAt);
    assert RowOk(cfg.catalogue, s.effects, s.orders, c.eventId, s.inbox[c.eventId]);
    RowWriteKeepsTokens(cfg.catalogue, s.inbox, s.effects, s.issued, c.eventId, row);
    RowWriteKeepsLocks(s.inbox, s.workers, cfg.catalogue, cfg.inboxMode, s.issued, s.effects, c.eventId, row);
    KeepsOffsets(cfg, s.inbox, s.effects, s.inbox[c.eventId := row], s.effects, s.committed, s.positions, s.acks);
    RowWriteKeepsCapacity(s.inbox, cfg.pendingLimit, cfg.retainedLimit, c.eventId, row);
  }

  lemma GiveBackKeepsInv(cfg: Config, s: World, step: Step)
    requires Inv(cfg, s) && CanStep(cfg, s, step) && step.GiveBack?
    ensures Inv(cfg, After(cfg, s, step))
  {
    hide Inv, CanStep, After;
    GiveBackStep(cfg, s, step);
    var w, clock := step.w, Max(s.clock, step.now);
    WorkerOwnsItsClaim(cfg, s, w);
    GoneKeepsInv(cfg, s, w);
    TimeKeepsInv(cfg, Gone(s, w), clock);
    if s.workers[w].claim.Some? {
      var c := s.workers[w].claim.value;
      var mid := Gone(s, w).(clock := clock);
      if Holds(s.inbox, c, step.now) {
        UnclaimKeepsInv(cfg, mid, c, step.now, step.nextAt);
      }
      PermitsKeepInv(cfg, mid.(inbox := GivenBack(s.inbox, c, step.now, step.nextAt)), Released(s.permits, c));
    }
  }

  // ---- leases and purging

  lemma RenewKeepsInv(cfg: Config, s: World, step: Step)
    requires Inv(cfg, s) && CanStep(cfg, s, step) && step.Renew?
    ensures Inv(cfg, After(cfg, s, step))
  {
    hide CanStep, After, LedgerOk, TokensOk, LocksOk, OrderOk, CallsOk, SellerOk, GapOk, OffsetsOk, CapacityOk,
      BudgetOk, WellNumbered, Known, RowLocked;
    RenewStep(cfg, s, step);
    var c := step.claim;
    TimeKeepsBudget(s.admissions, s.history, cfg.limits, s.clock, step.later);
    if Holds(s.inbox, c, step.now) {
      var row := s.inbox[c.eventId].(leaseUntil := step.now + cfg.limits.leaseMs);
      assert RowOk(cfg.catalogue, s.effects, s.orders, c.eventId, s.inbox[c.eventId]);
      RowWriteKeepsTokens(cfg.catalogue, s.inbox, s.effects, s.issued, c.eventId, row);
      RowWriteKeepsLocks(s.inbox, s.workers, cfg.catalogue, cfg.inboxMode, s.issued, s.effects, c.eventId, row);
      KeepsOffsets(cfg, s.inbox, s.effects, s.inbox[c.eventId := row], s.effects, s.committed, s.positions, s.acks);
      RowWriteKeepsCapacity(s.inbox, cfg.pendingLimit, cfg.retainedLimit, c.eventId, row);
    }
  }

  lemma PurgeKeepsTables(cfg: Config, s: World, ids: set<EventId>, cutoff: int)
    requires InboxOk(cfg.catalogue, s.inbox, s.effects, s.orders)
    requires TokensOk(cfg.catalogue, s.inbox, s.effects, s.issued)
    requires LocksOk(s.inbox, s.workers) && MayPurge(s.inbox, ids, cutoff)
    ensures InboxOk(cfg.catalogue, s.inbox - ids, s.effects, s.orders)
    ensures TokensOk(cfg.catalogue, s.inbox - ids, s.effects, s.issued)
    ensures LocksOk(s.inbox - ids, s.workers)
    ensures forall id :: Stored(s.inbox, s.effects, id) ==> Stored(s.inbox - ids, s.effects, id)
  {
    forall id | id in ids
      ensures id in s.effects
    {
      assert RowOk(cfg.catalogue, s.effects, s.orders, id, s.inbox[id]);
    }
    forall c | c in s.issued
      ensures TokenOk(cfg.catalogue, s.inbox - ids, s.effects, c)
    {
      assert TokenOk(cfg.catalogue, s.inbox, s.effects, c);
    }
    forall id | id in s.inbox - ids && s.inbox[id].state == CLAIMED
      ensures exists c :: c in s.issued && c.eventId == id && Names(s.inbox - ids, c)
    {
      var c :| c in s.issued && c.eventId == id && Names(s.inbox, c);
      assert Names(s.inbox - ids, c);
    }
  }

  lemma PurgedRowsKeepInv(cfg: Config, s: World, ids: set<EventId>, cutoff: int)
    requires Inv(cfg, s) && MayPurge(s.inbox, ids, cutoff)
    ensures Inv(cfg, s.(inbox := s.inbox - ids))
  {
    hide LedgerOk, InboxOk, TokensOk, WorkersOk, LocksOk, OrderOk, CallsOk, SellerOk, GapOk, OffsetsOk, CapacityOk,
      BudgetOk, WellNumbered, Known, MayPurge;
    PurgeKeepsTables(cfg, s, ids, cutoff);
    PurgeKeepsCapacity(s.inbox, cfg.pendingLimit, cfg.retainedLimit, ids);
    KeepsOffsets(cfg, s.inbox, s.effects, s.inbox - ids, s.effects, s.committed, s.positions, s.acks);
  }

  lemma PurgedAdmissionsKeepInv(cfg: Config, s: World, gone: set<nat>, now: int)
    requires Inv(cfg, s)
    requires forall i :: i in gone && i < |s.admissions| ==>
          s.admissions[i].admittedAt < now - 10 * cfg.limits.retryWindowMs
    ensures Inv(cfg, s.(admissions := Without(s.admissions, gone), clock := Max(s.clock, now)))
  {
    hide LedgerOk, InboxOk, TokensOk, WorkersOk, LocksOk, OrderOk, CallsOk, SellerOk, GapOk, OffsetsOk, CapacityOk,
      BudgetOk, WellNumbered, Known, Without;
    PurgeKeepsBudget(s.admissions, s.history, cfg.limits, s.clock, gone, Max(s.clock, now));
  }

  lemma PurgeKeepsInv(cfg: Config, s: World, step: Step)
    requires Inv(cfg, s) && CanStep(cfg, s, step) && (step.PurgeDone? || step.PurgeAdmissions?)
    ensures Inv(cfg, After(cfg, s, step))
  {
    hide Inv, MayPurge, Without;
    if step.PurgeDone? {
      PurgedRowsKeepInv(cfg, s, step.ids, step.cutoff);
    } else {
      PurgedAdmissionsKeepInv(cfg, s, step.gone, step.now);
    }
  }

  lemma OffsetStepKeepsInv(cfg: Config, s: World, step: Step)
    requires Inv(cfg, s) && CanStep(cfg, s, step) && (step.Assign? || step.Acknowledge?)
    ensures Inv(cfg, After(cfg, s, step))
  {
    hide LedgerOk, InboxOk, TokensOk, WorkersOk, LocksOk, OrderOk, CallsOk, SellerOk, GapOk, CapacityOk, BudgetOk,
      WellNumbered, Known;
  }

  // ---- all of them

  lemma StepKeepsInv(cfg: Config, s: World, step: Step)
    requires Inv(cfg, s) && CanStep(cfg, s, step)
    ensures Inv(cfg, After(cfg, s, step))
  {
    hide Inv;
    match step
    case Tick(now) => TimeKeepsInv(cfg, s, now);
    case Assign(_, _) => OffsetStepKeepsInv(cfg, s, step);
    case Poll(_, _, _, _) => PollKeepsInv(cfg, s, step);
    case Acknowledge(_) => OffsetStepKeepsInv(cfg, s, step);
    case TryClaim(_, _, _, _, _, _) => ClaimKeepsInv(cfg, s, step);
    case Start(_, _, _) => StartKeepsInv(cfg, s, step);
    case CheckDelivered(_) => CheckKeepsInv(cfg, s, step);
    case CheckPredecessor(_) => CheckKeepsInv(cfg, s, step);
    case FinishDuplicate(_, _, _) => DuplicateKeepsInv(cfg, s, step);
    case Send(_, _) => SendKeepsInv(cfg, s, step);
    case Arrive(_) => ArriveKeepsInv(cfg, s, step);
    case Decide(_, _) => DecideKeepsInv(cfg, s, step);
    case Receive(_) => ReceiveKeepsInv(cfg, s, step);
    case Fail(_) => FailKeepsInv(cfg, s, step);
    case LockRow(_, _) => LockKeepsInv(cfg, s, step);
    case ReadLedger(_, _) => ReadKeepsInv(cfg, s, step);
    case Commit(_, _) => CommitKeepsInv(cfg, s, step);
    case GiveBack(_, _, _) => GiveBackKeepsInv(cfg, s, step);
    case Abandon(_) => AbandonKeepsInv(cfg, s, step);
    case Crash(_) => CrashKeepsInv(cfg, s, step);
    case Renew(_, _, _) => RenewKeepsInv(cfg, s, step);
    case PurgeDone(_, _) => PurgeKeepsInv(cfg, s, step);
    case PurgeAdmissions(_, _) => PurgeKeepsInv(cfg, s, step);
  }

  lemma NewSellerOk(catalogue: map<EventId, Event>)
    ensures SellerOk(catalogue, NEW_SELLER)
  {
    forall key
      ensures SequencesOf(NEW_SELLER.log, key) == UpTo(LastSequence(NEW_SELLER.orders, key))
    {
    }
  }

  lemma InitialInv(cfg: Config, clock: int)
    requires cfg.Valid()
    ensures Inv(cfg, Initial(clock))
  {
    NewSellerOk(cfg.catalogue);
    hide SellerOk, WellNumbered, Known;
    assert PendingIds(map[]) == {};
    assert BudgetOk([], [], cfg.limits, clock);
    hide BudgetOk;
    assert CapacityOk(map[], cfg.pendingLimit, cfg.retainedLimit);
    hide CapacityOk;
    assert OffsetsOk(cfg, map[], map[], map[], map[], {});
    hide OffsetsOk;
  }
}
