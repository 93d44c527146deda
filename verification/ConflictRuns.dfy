/**
 * When the seller answers 409: exactly when one of its decisions skipped the idempotency key of an
 * event it had applied. Order, gap and at-most-once do not depend on the key; this does.
 */
module ConflictRuns {
  import opened Domain
  import opened InboxTables
  import opened SellerApi
  import opened DeliveryProtocol
  import opened DeliveryInvariant
  import opened DeliverySteps
  import opened DeliveryTheorems
  import opened DeliveryProgress
  import SellerLemmas
  import TableLemmas

  ghost predicate HasConflict(attempts: seq<Attempt>) {
    exists i :: 0 <= i < |attempts| && attempts[i].status == Some(CONFLICT)
  }

  /** The decision gets past the injected failures and disregards that the event was applied before. */
  predicate IgnoresKey(s: World, step: Step) {
    && step.Decide? && step.request in s.requests && s.requests[step.request].stage.Counted?
    && s.requests[step.request].stage.count >= step.policy.failureCount
    && !step.policy.idempotent && s.requests[step.request].event.eventId in s.seller.effects
  }

  predicate EverIgnoresKey(cfg: Config, s: World, run: seq<Step>)
    requires IsRun(cfg, s, run)
    decreases |run|
  {
    run != [] && (IgnoresKey(s, run[0]) || EverIgnoresKey(cfg, After(cfg, s, run[0]), run[1..]))
  }

  predicate SameAttempt(a: Request, b: Request) {
    a.stage.Counted? && b.stage.Counted? && a.stage.attempt == b.stage.attempt
  }

  /** Every request that waits for its decision has a log entry of its own, without an answer yet. */
  ghost predicate AttemptsOk(requests: map<nat, Request>, attempts: seq<Attempt>) {
    && (forall r :: r in requests && requests[r].stage.Counted? ==>
          requests[r].stage.attempt < |attempts| && attempts[requests[r].stage.attempt].status == None)
    && (forall q, r :: q in requests && r in requests && SameAttempt(requests[q], requests[r]) ==> q == r)
  }

  lemma ArriveKeepsAttempts(s: World, r: nat)
    requires AttemptsOk(s.requests, s.seller.attempts) && r in s.requests && s.requests[r].stage.Travelling?
    ensures AttemptsOk(AfterArrive(s, r).requests, AfterArrive(s, r).seller.attempts)
    ensures HasConflict(AfterArrive(s, r).seller.attempts) <==> HasConflict(s.seller.attempts)
  {
    var before, after := s.seller.attempts, AfterArrive(s, r).seller.attempts;
    assert forall i :: 0 <= i < |before| ==> after[i] == before[i];
    if HasConflict(before) {
      var i :| 0 <= i < |before| && before[i].status == Some(CONFLICT);
      assert after[i].status == Some(CONFLICT);
    }
  }

  lemma AnswerKeepsAttempts(
    requests: map<nat, Request>, before: seq<Attempt>, after: seq<Attempt>, r: nat, answer: Request)
    requires AttemptsOk(requests, before) && |after| == |before| && !answer.stage.Counted?
    requires r in requests && requests[r].stage.Counted?
    requires forall i :: 0 <= i < |before| && i != requests[r].stage.attempt ==> after[i].status == before[i].status
    ensures AttemptsOk(requests[r := answer], after)
    ensures HasConflict(after) <==> HasConflict(before) || after[requests[r].stage.attempt].status == Some(CONFLICT)
  {
    if HasConflict(before) {
      var i :| 0 <= i < |before| && before[i].status == Some(CONFLICT);
      assert after[i].status == Some(CONFLICT);
    }
    forall q | q in requests && q != r && requests[q].stage.Counted?
      ensures after[requests[q].stage.attempt].status == None
    {
      assert !SameAttempt(requests[q], requests[r]);
    }
  }

  lemma DecisionConflicts(cfg: Config, s: World, r: nat, policy: Policy)
    requires Inv(cfg, s) && r in s.requests && s.requests[r].stage.Counted?
    requires s.requests[r].stage.attempt < |s.seller.attempts|
    ensures var t, attempt := AfterDecide(s, r, policy), s.requests[r].stage.attempt;
            && |t.seller.attempts| == |s.seller.attempts|
            && (forall i :: 0 <= i < |s.seller.attempts| && i != attempt ==>
                  t.seller.attempts[i].status == s.seller.attempts[i].status)
            && (t.seller.attempts[attempt].status == Some(CONFLICT) <==> IgnoresKey(s, Decide(r, policy)))
            && t.requests == s.requests[r := t.requests[r]] && !t.requests[r].stage.Counted?
  {
    hide Inv, SellerOk, GapOk, WellNumbered, Known, Decided, Applies, Status, Dropped, LastSequence;
    var e, stage := s.requests[r].event, s.requests[r].stage;
    RequestIsCleared(cfg, s, r);
    SellerLemmas.ConflictNeedsForgottenKey(cfg.catalogue, s.orders, s.seller, e, stage.count, policy);
    SellerLemmas.DecidedIs(s.seller, e, stage.count, stage.attempt, policy);
  }

  lemma DecideKeepsAttempts(cfg: Config, s: World, step: Step)
    requires Inv(cfg, s) && AttemptsOk(s.requests, s.seller.attempts) && CanStep(cfg, s, step) && step.Decide?
    ensures var t := After(cfg, s, step);
            && AttemptsOk(t.requests, t.seller.attempts)
            && (HasConflict(t.seller.attempts) <==> HasConflict(s.seller.attempts) || IgnoresKey(s, step))
  {
    hide Inv, CanStep, After, AttemptsOk, HasConflict, AfterDecide, IgnoresKey;
    DecideStep(cfg, s, step);
    var r := step.request;
    DecisionConflicts(cfg, s, r, step.policy);
    var t := AfterDecide(s, r, step.policy);
    AnswerKeepsAttempts(s.requests, s.seller.attempts, t.seller.attempts, r, t.requests[r]);
  }

  lemma PollKeepsSeller(
    cfg: Config, s: World, instance: InstanceId, upto: map<int, nat>, records: seq<Record>, receivedAt: int)
    ensures var t := AfterPoll(cfg, s, instance, upto, records, receivedAt);
          t.seller == s.seller && t.requests == s.requests
  {
    hide StoreAll;
  }

  lemma ClaimKeepsSeller(
    cfg: Config, s: World, w: nat, instance: InstanceId, e: Event, at: ClaimClock, appNow: int, cached: bool)
    ensures var t := AfterClaim(cfg, s, w, instance, e, at, appNow, cached);
          t.seller == s.seller && t.requests == s.requests
  {
    hide ClaimEnds, EnsuredPermits, RowLocked, FirstFree;
    ClaimedRowExists(s.inbox, EnsuredPermits(cfg, s, e.sellerId, cached), s.admissions, s.orders, e, cfg.limits, at,
      appNow, RowLocked(s.workers, e.eventId));
  }

  predicate MovesWorker(step: Step) {
    || step.CheckDelivered? || step.CheckPredecessor? || step.Receive? || step.Fail? || step.LockRow? || step.Abandon?
    || step.Start? || step.Crash?
  }

  lemma WorkerMovesKeepSeller(cfg: Config, s: World, step: Step)
    requires CanStep(cfg, s, step) && MovesWorker(step)
    ensures After(cfg, s, step).seller == s.seller && After(cfg, s, step).requests == s.requests
  {
    hide StillHolds, LastSequence, RowLocked;
  }

  lemma WritesKeepSeller(cfg: Config, s: World, step: Step)
    requires CanStep(cfg, s, step)
    requires step.FinishDuplicate? || step.ReadLedger? || step.Commit? || step.GiveBack?
    ensures After(cfg, s, step).seller == s.seller && After(cfg, s, step).requests == s.requests
  {
    hide CanStep, After, CompletedBy, GivenBackBy, ReleasedBy, StillHolds, Collides, LastSequence, MayWriteRow;
    if step.FinishDuplicate? {
      DuplicateStep(cfg, s, step);
    } else if step.ReadLedger? {
      ReadStep(cfg, s, step);
    } else if step.Commit? {
      CommitStep(cfg, s, step);
    } else {
      GiveBackStep(cfg, s, step);
    }
  }

  lemma OtherStepsKeepSeller(cfg: Config, s: World, step: Step)
    requires CanStep(cfg, s, step) && !step.Send? && !step.Arrive? && !step.Decide?
    ensures After(cfg, s, step).seller == s.seller && After(cfg, s, step).requests == s.requests
  {
    if step.Poll? {
      hide CanStep, AfterPoll;
      PollKeepsSeller(cfg, s, step.instance, step.upto, step.records, step.receivedAt);
    } else if step.TryClaim? {
      hide AfterClaim;
      ClaimKeepsSeller(cfg, s, step.w, step.instance, step.event, step.at, step.appNow, step.cached);
    } else if MovesWorker(step) {
      hide CanStep, After;
      WorkerMovesKeepSeller(cfg, s, step);
    } else if step.FinishDuplicate? || step.ReadLedger? || step.Commit? || step.GiveBack? {
      hide CanStep, After;
      WritesKeepSeller(cfg, s, step);
    } else {
      hide CanStep, RenewedInbox, RenewedPermits, Without;
    }
  }

  lemma StepConflicts(cfg: Config, s: World, step: Step)
    requires Inv(cfg, s) && AttemptsOk(s.requests, s.seller.attempts) && CanStep(cfg, s, step)
    ensures var t := After(cfg, s, step);
            && AttemptsOk(t.requests, t.seller.attempts)
            && (HasConflict(t.seller.attempts) <==> HasConflict(s.seller.attempts) || IgnoresKey(s, step))
  {
    hide Inv, HasConflict;
    if step.Arrive? {
      ArriveKeepsAttempts(s, step.request);
    } else if step.Decide? {
      DecideKeepsAttempts(cfg, s, step);
    } else if !step.Send? {
      OtherStepsKeepSeller(cfg, s, step);
    }
  }

  lemma {:induction false} RunConflicts(cfg: Config, s: World, run: seq<Step>)
    requires Inv(cfg, s) && AttemptsOk(s.requests, s.seller.attempts) && IsRun(cfg, s, run)
    ensures HasConflict(End(cfg, s, run).seller.attempts)
          <==> HasConflict(s.seller.attempts) || EverIgnoresKey(cfg, s, run)
    decreases |run|
  {
    hide Inv, AttemptsOk, HasConflict, CanStep, After, IgnoresKey;
    if run != [] {
      StepConflicts(cfg, s, run[0]);
      StepKeepsInv(cfg, s, run[0]);
      RunConflicts(cfg, After(cfg, s, run[0]), run[1..]);
    }
  }

  /**
   * In every run, under every mix of fault policies, the seller answers 409 if and only if one of its
   * decisions disregarded the idempotency key of an event it had already applied.
   */
  lemma ConflictExactlyWhenKeyIgnored(cfg: Config, clock: int, run: seq<Step>)
    requires cfg.Valid() && IsRun(cfg, Initial(clock), run)
    ensures HasConflict(End(cfg, Initial(clock), run).seller.attempts) <==> EverIgnoresKey(cfg, Initial(clock), run)
  {
    hide Inv, IsRun, End, EverIgnoresKey;
    InitialInv(cfg, clock);
    RunConflicts(cfg, Initial(clock), run);
  }

  // ---- such runs exist

  const KEYLESS := Policy(0, false, false)

  lemma ChecksPass(cfg: Config, s: World, w: nat, e: Event)
    requires InPhase(s, w, Ready) && s.workers[w].event == e
    requires e.eventId !in s.effects && LastSequence(s.orders, e.Key()) + 1 == e.sequence
    ensures CanStep(cfg, s, CheckDelivered(w))
    ensures var mid := After(cfg, s, CheckDelivered(w));
            CanStep(cfg, mid, CheckPredecessor(w)) && After(cfg, mid, CheckPredecessor(w)) == Moved(s, w, Checked)
  {
  }

  lemma RequestTravels(cfg: Config, s: World, w: nat, r: nat)
    requires InPhase(s, w, Checked) && r !in s.requests
    ensures CanStep(cfg, s, Send(w, r)) && After(cfg, s, Send(w, r)) == AfterSend(s, w, r)
    ensures r in AfterSend(s, w, r).requests
    ensures CanStep(cfg, AfterSend(s, w, r), Arrive(r))
    ensures After(cfg, AfterSend(s, w, r), Arrive(r)) == AfterArrive(AfterSend(s, w, r), r)
  {
  }

  lemma TwoSteps(cfg: Config, s: World, first: Step, second: Step, rest: seq<Step>)
    requires CanStep(cfg, s, first) && CanStep(cfg, After(cfg, s, first), second)
    requires IsRun(cfg, After(cfg, After(cfg, s, first), second), rest)
    ensures var run := [first] + ([second] + rest);
            IsRun(cfg, s, run) && End(cfg, s, run) == End(cfg, After(cfg, After(cfg, s, first), second), rest)
  {
    hide CanStep, After;
    Prepend(cfg, After(cfg, s, first), second, rest);
    Prepend(cfg, s, first, [second] + rest);
  }

  /** The request carries the answer of a seller that decides it as soon as it has arrived. */
  predicate IsAnswered(before: Seller, e: Event, policy: Policy, request: Request) {
    var arrived, count := Arrived(before, e), Count(before, e.eventId);
    && request.event == e
    && request.stage == Answered(Status(arrived, e, count, policy), Dropped(arrived, e, count, policy))
  }

  /** What a call from send to decision changes. */
  lemma CallChanges(s: World, w: nat, e: Event, r: nat, policy: Policy)
    requires w in s.workers && s.workers[w].event == e && r !in s.requests
    ensures var arrived := AfterArrive(AfterSend(s, w, r), r);
            && r in arrived.requests && arrived.requests[r].stage.Counted?
            && arrived.requests[r].stage.attempt < |arrived.seller.attempts|
            && var t := AfterDecide(arrived, r, policy);
            && t.seller == Decided(Arrived(s.seller, e), e, Count(s.seller, e.eventId), |s.seller.attempts|, policy)
            && t == s.(workers := t.workers, requests := t.requests, seller := t.seller)
            && w in t.workers && t.workers[w].event == e && t.workers - {w} == s.workers - {w}
            && t.workers[w].instance == s.workers[w].instance && t.workers[w].claim == s.workers[w].claim
            && t.workers[w].phase == Calling(r)
            && r in t.requests && IsAnswered(s.seller, e, policy, t.requests[r])
  {
    hide Decided, Status, Dropped;
    var t := AfterDecide(AfterArrive(AfterSend(s, w, r), r), r, policy);
    assert t.workers - {w} == s.workers - {w};
  }

  /** A worker whose event is due takes it to the seller, who decides at once. */
  lemma CanCall(cfg: Config, s: World, w: nat, e: Event, policy: Policy) returns (run: seq<Step>)
    requires InPhase(s, w, Ready) && s.workers[w].event == e
    requires e.eventId !in s.effects && LastSequence(s.orders, e.Key()) + 1 == e.sequence
    ensures IsRun(cfg, s, run)
    ensures var t := End(cfg, s, run);
            && t.seller == Decided(Arrived(s.seller, e), e, Count(s.seller, e.eventId), |s.seller.attempts|, policy)
            && t == s.(workers := t.workers, requests := t.requests, seller := t.seller)
            && w in t.workers && t.workers[w].event == e && t.workers - {w} == s.workers - {w}
            && t.workers[w].instance == s.workers[w].instance && t.workers[w].claim == s.workers[w].claim
            && t.workers[w].phase.Calling?
            && t.workers[w].phase.request in t.requests
            && IsAnswered(s.seller, e, policy, t.requests[t.workers[w].phase.request])
  {
    hide IsAnswered, CanStep, After, IsRun, End, Decided, Arrived, AfterSend, AfterArrive, AfterDecide, LastSequence;
    var r := Fresh(s.requests.Keys);
    var checked := Moved(s, w, Checked);
    ChecksPass(cfg, s, w, e);
    RequestTravels(cfg, checked, w, r);
    var arrived := AfterArrive(AfterSend(checked, w, r), r);
    CallChanges(checked, w, e, r, policy);
    DecideStep(cfg, arrived, Decide(r, policy));
    OneStep(cfg, arrived, Decide(r, policy));
    var decide := [Decide(r, policy)];
    TwoSteps(cfg, checked, Send(w, r), Arrive(r), decide);
    run := [CheckDelivered(w)] + ([CheckPredecessor(w)] + ([Send(w, r)] + ([Arrive(r)] + decide)));
    TwoSteps(cfg, s, CheckDelivered(w), CheckPredecessor(w), [Send(w, r)] + ([Arrive(r)] + decide));
    assert checked.workers - {w} == s.workers - {w};
  }

  /** A seller that skips the key answers 409 exactly when the request is not the next one of its order. */
  lemma ForgetfulSellerConflicts(catalogue: map<EventId, Event>, seller: Seller, e: Event, count: nat, policy: Policy)
    requires WellNumbered(catalogue) && SellerOk(catalogue, seller) && Known(catalogue, e)
    requires count >= policy.failureCount && !policy.idempotent
    ensures Status(seller, e, count, policy) == CONFLICT <==> e.sequence != LastSequence(seller.orders, e.Key()) + 1
    ensures e.eventId in seller.effects ==> Status(seller, e, count, policy) == CONFLICT
  {
    TableLemmas.InLedger(catalogue, seller.effects, seller.orders, e);
  }

  lemma DecidedConflict(seller: Seller, e: Event, count: nat, attempt: nat, policy: Policy)
    requires attempt < |seller.attempts| && Status(seller, e, count, policy) == CONFLICT
    ensures HasConflict(Decided(seller, e, count, attempt, policy).attempts)
  {
    SellerLemmas.DecidedIs(seller, e, count, attempt, policy);
    hide Decided, Status, Applies;
    assert Decided(seller, e, count, attempt, policy).attempts[attempt].status == Some(CONFLICT);
  }

  /** Where an order stands, as far as the next lemma needs it. */
  ghost predicate IsNext(cfg: Config, s: World, w: nat, e: Event) {
    && Inv(cfg, s) && InPhase(s, w, Ready) && s.workers[w].event == e && Known(cfg.catalogue, e)
    && e.eventId !in s.effects && LastSequence(s.orders, e.Key()) + 1 == e.sequence
  }

  lemma SellerOfInv(cfg: Config, s: World)
    requires Inv(cfg, s)
    ensures WellNumbered(cfg.catalogue) && SellerOk(cfg.catalogue, s.seller) && GapOk(s.orders, s.seller.orders)
  {
  }

  /** What the decision of a call does: a fair one leaves the event applied, one without the key then conflicts. */
  lemma CallDecides(cfg: Config, s: World, w: nat, e: Event, policy: Policy) returns (run: seq<Step>)
    requires IsNext(cfg, s, w, e) && policy.failureCount == 0
    ensures IsRun(cfg, s, run) && Inv(cfg, End(cfg, s, run))
    ensures var t := End(cfg, s, run);
            && t == s.(workers := t.workers, requests := t.requests, seller := t.seller)
            && t.workers - {w} == s.workers - {w} && w in t.workers
            && (policy.idempotent ==> e.eventId in t.seller.effects)
            && (!policy.idempotent && e.eventId in s.seller.effects ==> HasConflict(t.seller.attempts))
  {
    run := CanCall(cfg, s, w, e, policy);
    RunKeepsInv(cfg, s, run);
    SellerOfInv(cfg, s);
    hide Inv, IsRun, End;
    var arrived, count, attempt := Arrived(s.seller, e), Count(s.seller, e.eventId), |s.seller.attempts|;
    SellerLemmas.ArriveKeepsSeller(cfg.catalogue, s.seller, e);
    SellerLemmas.DecideKeepsSeller(cfg.catalogue, s.orders, arrived, e, count, attempt, policy);
    hide Decided, Status, Applies, HasConflict, SellerOk, GapOk, WellNumbered;
    if policy.idempotent {
      SellerLemmas.ConflictNeedsForgottenKey(cfg.catalogue, s.orders, arrived, e, count, policy);
    } else if e.eventId in s.seller.effects {
      ForgetfulSellerConflicts(cfg.catalogue, arrived, e, count, policy);
      DecidedConflict(arrived, e, count, attempt, policy);
    }
  }

  lemma StartIsNext(cfg: Config, s: World, w: nat, instance: InstanceId, e: Event)
    requires Inv(cfg, s) && !cfg.inboxMode && w !in s.workers && Known(cfg.catalogue, e)
    requires e.eventId !in s.effects && LastSequence(s.orders, e.Key()) + 1 == e.sequence
    ensures CanStep(cfg, s, Start(w, instance, e))
    ensures var t := After(cfg, s, Start(w, instance, e));
            IsNext(cfg, t, w, e) && t == s.(workers := t.workers) && t.workers.Keys == s.workers.Keys + {w}
  {
    hide Inv, LastSequence, Known;
    StepKeepsInv(cfg, s, Start(w, instance, e));
  }

  lemma SameKeys(before: map<nat, Worker>, after: map<nat, Worker>, w: nat)
    requires w in before && w in after && after - {w} == before - {w}
    ensures after.Keys == before.Keys
  {
    assert after.Keys == (after - {w}).Keys + {w} && before.Keys == (before - {w}).Keys + {w};
  }

  /** Two workers with the same event outside the inbox: a redelivered record after a lost response. */
  lemma ConflictIsReachable(
    cfg: Config, clock: int, past: seq<Step>, e: Event, first: nat, second: nat, instance: InstanceId)
    returns (run: seq<Step>)
    requires cfg.Valid() && !cfg.inboxMode && IsRun(cfg, Initial(clock), past) && Known(cfg.catalogue, e)
    requires var s := End(cfg, Initial(clock), past);
             && first !in s.workers && second !in s.workers && first != second
             && e.eventId !in s.effects && LastSequence(s.orders, e.Key()) + 1 == e.sequence
    ensures var s := End(cfg, Initial(clock), past);
            IsRun(cfg, s, run) && HasConflict(End(cfg, s, run).seller.attempts)
  {
    ReachableInv(cfg, clock, past);
    var s := End(cfg, Initial(clock), past);
    hide IsRun, End, Inv, HasConflict, IsNext, CanStep, After, LastSequence, Known;
    var startOne, startTwo := Start(first, instance, e), Start(second, instance, e);
    StartIsNext(cfg, s, first, instance, e);
    var one := After(cfg, s, startOne);
    var call := CallDecides(cfg, one, first, e, FAIR);
    var mid := End(cfg, one, call);
    assert mid.workers.Keys == one.workers.Keys by { SameKeys(one.workers, mid.workers, first); }
    StartIsNext(cfg, mid, second, instance, e);
    var again := CallDecides(cfg, After(cfg, mid, startTwo), second, e, KEYLESS);
    Prepend(cfg, mid, startTwo, again);
    Concatenate(cfg, one, call, [startTwo] + again);
    Prepend(cfg, s, startOne, call + ([startTwo] + again));
    run := [startOne] + (call + ([startTwo] + again));
  }

  /** The row of the next operation of an order is open and nobody is writing it. */
  ghost predicate CanBeClaimed(cfg: Config, s: World, e: Event) {
    && Inv(cfg, s) && cfg.inboxMode && Workable(cfg.limits) && Known(cfg.catalogue, e)
    && !RowLocked(s.workers, e.eventId)
    && e.eventId in s.inbox && s.inbox[e.eventId].event == e && s.inbox[e.eventId].state != DONE
    && e.eventId !in s.effects
    && e.sequence == LastSequence(s.orders, e.Key()) + 1
  }

  /** The worker is the only one at its row, which is still open. */
  ghost predicate IsAlone(cfg: Config, s: World, w: nat, e: Event) {
    && Inv(cfg, s) && cfg.inboxMode && Workable(cfg.limits) && Known(cfg.catalogue, e)
    && w in s.workers && !RowLocked(s.workers - {w}, e.eventId) && e.eventId in PendingIds(s.inbox)
    && e.eventId !in s.effects && e.sequence == LastSequence(s.orders, e.Key()) + 1
  }

  /** A worker that dies leaves its row as it is, for the next claim to take over. */
  lemma AbandonIsFree(cfg: Config, s: World, w: nat, e: Event)
    requires IsAlone(cfg, s, w, e)
    ensures CanStep(cfg, s, Abandon(w)) && After(cfg, s, Abandon(w)) == Gone(s, w)
    ensures CanBeClaimed(cfg, Gone(s, w), e)
  {
    hide Inv, LastSequence;
    RowsAreCatalogued(cfg, s);
    StepKeepsInv(cfg, s, Abandon(w));
  }

  /** Once everything has lapsed, the row is claimed. */
  lemma ClaimIsNext(cfg: Config, s: World, e: Event, instance: InstanceId) returns (claim: Step, w: nat)
    requires CanBeClaimed(cfg, s, e)
    ensures CanStep(cfg, s, claim)
    ensures var t := After(cfg, s, claim); IsNext(cfg, t, w, e) && IsAlone(cfg, t, w, e) && t.seller == s.seller
  {
    hide Inv, Known, LastSequence, Settled, After, CanStep;
    var t := SettlingTime(cfg, s);
    w := Fresh(s.workers.Keys);
    var c;
    claim, c := ClaimToCarry(cfg, s, w, instance, e, t);
    OtherStepsKeepSeller(cfg, s, claim);
  }

  lemma CallKeepsAlone(cfg: Config, s: World, t: World, w: nat, e: Event)
    requires IsAlone(cfg, s, w, e) && Inv(cfg, t)
    requires t == s.(workers := t.workers, requests := t.requests, seller := t.seller)
    requires t.workers - {w} == s.workers - {w} && w in t.workers
    ensures IsAlone(cfg, t, w, e)
  {
    hide Inv, LastSequence, Known;
  }

  /** Waits until the row can be claimed, claims it, calls the seller and dies. */
  lemma ClaimAndCall(cfg: Config, s: World, e: Event, instance: InstanceId, policy: Policy) returns (run: seq<Step>)
    requires CanBeClaimed(cfg, s, e) && policy.failureCount == 0
    ensures IsRun(cfg, s, run) && CanBeClaimed(cfg, End(cfg, s, run), e)
    ensures var t := End(cfg, s, run);
            && (policy.idempotent ==> e.eventId in t.seller.effects)
            && (!policy.idempotent && e.eventId in s.seller.effects ==> HasConflict(t.seller.attempts))
  {
    hide IsRun, End, Inv, HasConflict, CanBeClaimed, IsAlone, IsNext, CanStep, After;
    var claim, w := ClaimIsNext(cfg, s, e, instance);
    var claimed := After(cfg, s, claim);
    var call := CallDecides(cfg, claimed, w, e, policy);
    var called, die := End(cfg, claimed, call), Abandon(w);
    CallKeepsAlone(cfg, claimed, called, w, e);
    AbandonIsFree(cfg, called, w, e);
    OneStep(cfg, called, die);
    Concatenate(cfg, claimed, call, [die]);
    Prepend(cfg, s, claim, call + [die]);
    run := [claim] + (call + [die]);
  }

  lemma CanBeUnlocked(cfg: Config, s: World, id: EventId) returns (next: EventId, unlock: seq<Step>)
    requires Inv(cfg, s) && cfg.inboxMode && Workable(cfg.limits) && HasPredecessors(s, id)
    requires s.inbox[id].state != DONE
    ensures IsRun(cfg, s, unlock) && next in s.inbox && CanBeClaimed(cfg, End(cfg, s, unlock), s.inbox[next].event)
  {
    hide IsRun, End, Inv, HasPredecessors, LastSequence, RowLocked, Known;
    next := NextIsStored(cfg, s, id);
    unlock := Unlock(cfg, s, next);
  }

  /**
   * With the inbox: from every reachable state with a row to deliver, a lost response and a second
   * claim can lead to a 409.
   */
  lemma ConflictIsReachableFromInbox(cfg: Config, clock: int, past: seq<Step>, id: EventId, instance: InstanceId)
    returns (run: seq<Step>)
    requires cfg.Valid() && cfg.inboxMode && Workable(cfg.limits) && IsRun(cfg, Initial(clock), past)
    requires var s := End(cfg, Initial(clock), past); HasPredecessors(s, id) && s.inbox[id].state != DONE
    ensures var s := End(cfg, Initial(clock), past);
            IsRun(cfg, s, run) && HasConflict(End(cfg, s, run).seller.attempts)
  {
    hide IsRun, End, Inv, HasConflict, CanBeClaimed, HasPredecessors, LastSequence;
    ReachableInv(cfg, clock, past);
    var s := End(cfg, Initial(clock), past);
    var next, unlock := CanBeUnlocked(cfg, s, id);
    var e, free := s.inbox[next].event, End(cfg, s, unlock);
    var first := ClaimAndCall(cfg, free, e, instance, FAIR);
    var mid := End(cfg, free, first);
    var second := ClaimAndCall(cfg, mid, e, instance, KEYLESS);
    Concatenate(cfg, free, first, second);
    Concatenate(cfg, s, unlock, first + second);
    run := unlock + (first + second);
  }
}
