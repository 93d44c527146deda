/**
 * The inbox can always be drained, claim by listed claim, whatever faults the seller injects, as long as it
 * honours the idempotency key: a call that fails or whose answer is lost brings the next one closer.
 */
module DrainRuns {
  import opened Domain
  import opened InboxTables
  import opened SellerApi
  import opened PartnerDatabase
  import opened DeliveryProtocol
  import opened DeliveryInvariant
  import opened DeliverySteps
  import opened DeliveryTheorems
  import opened DeliveryProgress
  import SellerLemmas
  import ReadyRows

  // ---- runs of listed claims under one policy

  /** The row of the claim is in some answer of the ready query at the claim's readings. */
  ghost predicate IsListedClaim(cfg: Config, s: World, step: Step, limit: nat)
    requires step.TryClaim?
  {
    var q := ReadyRows.Query(step.appNow, step.at.row, cfg.limits.sellerPermits, {}, limit);
    && step.event.eventId in s.inbox
    && exists rows :: ReadyRows.Answers(TablesOf(s), q, rows) && s.inbox[step.event.eventId] in rows
  }

  /** Every claim of the run takes a listed row, and every decision is taken under the policy. */
  ghost predicate Obeys(cfg: Config, s: World, run: seq<Step>, policy: Policy, limit: nat)
    requires IsRun(cfg, s, run)
    decreases |run|
  {
    run == []
    || ((run[0].TryClaim? ==> IsListedClaim(cfg, s, run[0], limit)) && (run[0].Decide? ==> run[0].policy == policy)
        && Obeys(cfg, After(cfg, s, run[0]), run[1..], policy, limit))
  }

  lemma ClaimObeys(cfg: Config, s: World, claim: Step, rest: seq<Step>, policy: Policy, limit: nat)
    requires CanStep(cfg, s, claim) && claim.TryClaim? && IsListedClaim(cfg, s, claim, limit)
    requires IsRun(cfg, After(cfg, s, claim), rest) && Obeys(cfg, After(cfg, s, claim), rest, policy, limit)
    ensures IsRun(cfg, s, [claim] + rest) && Obeys(cfg, s, [claim] + rest, policy, limit)
  {
    hide CanStep, After, IsListedClaim;
    Prepend(cfg, s, claim, rest);
    assert ([claim] + rest)[1..] == rest;
  }

  lemma {:induction false} ObeysJoin(
    cfg: Config, s: World, run: seq<Step>, rest: seq<Step>, policy: Policy, limit: nat)
    requires IsRun(cfg, s, run) && IsRun(cfg, End(cfg, s, run), rest)
    requires Obeys(cfg, s, run, policy, limit) && Obeys(cfg, End(cfg, s, run), rest, policy, limit)
    ensures IsRun(cfg, s, run + rest) && Obeys(cfg, s, run + rest, policy, limit)
    ensures End(cfg, s, run + rest) == End(cfg, End(cfg, s, run), rest)
    decreases |run|
  {
    hide CanStep, After, IsListedClaim;
    Concatenate(cfg, s, run, rest);
    if run == [] {
      assert run + rest == rest;
    } else {
      ObeysJoin(cfg, After(cfg, s, run[0]), run[1..], rest, policy, limit);
      assert (run + rest)[1..] == run[1..] + rest;
    }
  }

  /** No claim, and no decision but under the policy. */
  predicate IsPlain(run: seq<Step>, policy: Policy) {
    forall i :: 0 <= i < |run| ==> !run[i].TryClaim? && (run[i].Decide? ==> run[i].policy == policy)
  }

  lemma PlainPrepend(step: Step, rest: seq<Step>, policy: Policy)
    requires IsPlain(rest, policy) && !step.TryClaim? && (step.Decide? ==> step.policy == policy)
    ensures IsPlain([step] + rest, policy)
  {
  }

  lemma {:induction false} PlainObeys(cfg: Config, s: World, run: seq<Step>, policy: Policy, limit: nat)
    requires IsRun(cfg, s, run) && IsPlain(run, policy)
    ensures Obeys(cfg, s, run, policy, limit)
    decreases |run|
  {
    hide CanStep, After, IsListedClaim;
    if run != [] {
      PlainObeys(cfg, After(cfg, s, run[0]), run[1..], policy, limit);
    }
  }

  // ---- how one attempt ends

  /** The ledger has exactly this event more, and exactly its row is open no longer. */
  ghost predicate Delivers(cfg: Config, base: World, t: World, e: Event) {
    && Inv(cfg, t) && e.eventId in PendingIds(base.inbox) && e.eventId !in base.effects
    && t.effects == base.effects[e.eventId := e] && PendingIds(t.inbox) == PendingIds(base.inbox) - {e.eventId}
  }

  /** The row waits again, and the seller has counted one more arrival. */
  ghost predicate GivesUp(cfg: Config, base: World, t: World, e: Event) {
    && Inv(cfg, t) && OnlyTouched(base, t, e.eventId) && !RowLocked(t.workers, e.eventId)
    && Count(t.seller, e.eventId) == Count(base.seller, e.eventId) + 1
  }

  /** How many arrivals of an event may stay without an accepted answer. */
  function Patience(policy: Policy): nat {
    Max(policy.failureCount, 1)
  }

  ghost predicate Tries(cfg: Config, base: World, t: World, e: Event, policy: Policy) {
    Delivers(cfg, base, t, e)
    || (GivesUp(cfg, base, t, e) && Count(base.seller, e.eventId) < Patience(policy))
  }

  // ---- step by step, from its end

  lemma FromWriting(cfg: Config, base: World, s: World, w: nat, e: Event, c: Claim, policy: Policy)
    returns (run: seq<Step>)
    requires Carrying(cfg, base, s, w, e, c, Writing)
    ensures IsRun(cfg, s, run) && IsPlain(run, policy) && Delivers(cfg, base, End(cfg, s, run), e)
  {
    var step := Commit(w, s.clock);
    hide Inv, Known, CanStep, After, Collides, IsRun, End, PendingIds, ReleasedBy, AfterCommit;
    CommitStep(cfg, s, step);
    StepKeepsInv(cfg, s, step);
    WorkerOwnsItsClaim(cfg, s, w);
    NotCollidingIsNext(cfg, s, e);
    CommitClosesRow(s, w, s.clock);
    OneStep(cfg, s, step);
    run := [step];
  }

  /** A worker that only moves on still carries the event. */
  lemma CarriesOn(
    cfg: Config, base: World, s: World, w: nat, e: Event, c: Claim, phase: Phase, next: Phase)
    requires Carrying(cfg, base, s, w, e, c, phase) && Inv(cfg, Moved(s, w, next))
    ensures Carrying(cfg, base, Moved(s, w, next), w, e, c, next)
  {
    hide Inv, Holds, RowLocked, LastSequence;
    assert Moved(s, w, next).workers - {w} == s.workers - {w};
  }

  lemma FromLocked(cfg: Config, base: World, s: World, w: nat, e: Event, c: Claim, policy: Policy)
    returns (run: seq<Step>)
    requires Carrying(cfg, base, s, w, e, c, Locked)
    ensures IsRun(cfg, s, run) && IsPlain(run, policy) && Delivers(cfg, base, End(cfg, s, run), e)
  {
    hide Inv, IsRun, End, CanStep, After, Delivers, IsPlain, OnlyTouched, Holds, RowLocked, LastSequence;
    var step := ReadLedger(w, s.clock);
    ReadStep(cfg, s, step);
    StepKeepsInv(cfg, s, step);
    var t := After(cfg, s, step);
    assert t == Moved(s, w, Writing);
    CarriesOn(cfg, base, s, w, e, c, Locked, Writing);
    var rest := FromWriting(cfg, base, t, w, e, c, policy);
    PlainPrepend(step, rest, policy);
    Prepend(cfg, s, step, rest);
    run := [step] + rest;
  }

  lemma CarrierMayWrite(cfg: Config, base: World, s: World, w: nat, e: Event, c: Claim, phase: Phase)
    requires Carrying(cfg, base, s, w, e, c, phase) && !phase.Locked? && !phase.Writing?
    ensures MayWriteRow(s, w) && InPhase(s, w, phase) && Inv(cfg, s)
  {
    hide Inv, Holds, OnlyTouched, LastSequence;
    forall v | v in s.workers
      ensures !(s.workers[v].Locks() && s.workers[v].event.eventId == e.eventId)
    {
      assert v != w ==> v in s.workers - {w} && (s.workers - {w})[v] == s.workers[v];
    }
  }

  lemma HolderLocks(cfg: Config, base: World, s: World, w: nat, e: Event, c: Claim)
    requires Carrying(cfg, base, s, w, e, c, Succeeded)
    ensures AfterLock(s, w, s.clock) == Moved(s, w, Locked)
  {
    hide Inv, Holds, OnlyTouched, RowLocked, LastSequence;
  }

  lemma FromSucceeded(cfg: Config, base: World, s: World, w: nat, e: Event, c: Claim, policy: Policy)
    returns (run: seq<Step>)
    requires Carrying(cfg, base, s, w, e, c, Succeeded)
    ensures IsRun(cfg, s, run) && IsPlain(run, policy) && Delivers(cfg, base, End(cfg, s, run), e)
  {
    hide Inv, IsRun, End, CanStep, After, AfterLock, Carrying, Delivers, IsPlain, MayWriteRow;
    CarrierMayWrite(cfg, base, s, w, e, c, Succeeded);
    var step := LockRow(w, s.clock);
    LockStep(cfg, s, step);
    StepKeepsInv(cfg, s, step);
    var t := After(cfg, s, step);
    HolderLocks(cfg, base, s, w, e, c);
    CarriesOn(cfg, base, s, w, e, c, Succeeded, Locked);
    var rest := FromLocked(cfg, base, t, w, e, c, policy);
    PlainPrepend(step, rest, policy);
    Prepend(cfg, s, step, rest);
    run := [step] + rest;
  }

  lemma BackIsTouched(base: World, s: World, c: Claim, now: int, nextAt: int)
    requires OnlyTouched(base, s, c.eventId)
    ensures OnlyTouched(base, s.(inbox := GivenBack(s.inbox, c, now, nextAt)), c.eventId)
  {
    hide Holds;
    var after := GivenBack(s.inbox, c, now, nextAt);
    assert after == base.inbox[c.eventId := after[c.eventId]];
  }

  lemma SameTablesTouched(base: World, s: World, t: World, id: EventId)
    requires OnlyTouched(base, s, id) && t.inbox == s.inbox && t.effects == s.effects && t.orders == s.orders
    ensures OnlyTouched(base, t, id)
  {
  }

  lemma BackGivesUp(cfg: Config, base: World, s: World, w: nat, e: Event, c: Claim)
    requires Carrying(cfg, base, s, w, e, c, Failed) && Inv(cfg, AfterGiveBack(s, w, s.clock, s.clock))
    requires Count(s.seller, e.eventId) == Count(base.seller, e.eventId) + 1
    ensures GivesUp(cfg, base, AfterGiveBack(s, w, s.clock, s.clock), e)
  {
    hide Inv, OnlyTouched, RowLocked, LastSequence, GivenBack, Released, Count, Holds;
    var t := AfterGiveBack(s, w, s.clock, s.clock);
    BackIsTouched(base, s, c, s.clock, s.clock);
    SameTablesTouched(base, s.(inbox := GivenBack(s.inbox, c, s.clock, s.clock)), t, e.eventId);
  }

  lemma FromFailed(cfg: Config, base: World, s: World, w: nat, e: Event, c: Claim, policy: Policy)
    returns (run: seq<Step>)
    requires Carrying(cfg, base, s, w, e, c, Failed)
    requires Count(s.seller, e.eventId) == Count(base.seller, e.eventId) + 1
    ensures IsRun(cfg, s, run) && IsPlain(run, policy) && GivesUp(cfg, base, End(cfg, s, run), e)
  {
    hide Inv, IsRun, End, CanStep, After, AfterGiveBack, Carrying, MayWriteRow, Count, GivesUp, InPhase;
    CarrierMayWrite(cfg, base, s, w, e, c, Failed);
    var step := GiveBack(w, s.clock, s.clock);
    GiveBackStep(cfg, s, step);
    StepKeepsInv(cfg, s, step);
    BackGivesUp(cfg, base, s, w, e, c);
    OneStep(cfg, s, step);
    run := [step];
  }

  lemma FromHeard(cfg: Config, base: World, s: World, w: nat, e: Event, c: Claim, r: nat, policy: Policy)
    returns (run: seq<Step>)
    requires Carrying(cfg, base, s, w, e, c, Calling(r)) && r in s.requests
    requires s.requests[r].stage == Answered(OK, false)
    ensures IsRun(cfg, s, run) && IsPlain(run, policy) && Delivers(cfg, base, End(cfg, s, run), e)
  {
    hide Inv, IsRun, End, CanStep, After, Delivers, IsPlain, OnlyTouched, RowLocked, LastSequence, Holds;
    var step := Receive(w);
    ReceiveStep(cfg, s, step);
    StepKeepsInv(cfg, s, step);
    CarriesOn(cfg, base, s, w, e, c, Calling(r), Succeeded);
    var rest := FromSucceeded(cfg, base, Moved(s, w, Succeeded), w, e, c, policy);
    PlainPrepend(step, rest, policy);
    Prepend(cfg, s, step, rest);
    run := [step] + rest;
  }

  /** The answer was lost, or it was no acceptance: the exception gives the row back. */
  lemma FromUnheard(cfg: Config, base: World, s: World, w: nat, e: Event, c: Claim, r: nat, policy: Policy)
    returns (run: seq<Step>)
    requires Carrying(cfg, base, s, w, e, c, Calling(r))
    requires Count(s.seller, e.eventId) == Count(base.seller, e.eventId) + 1
    ensures IsRun(cfg, s, run) && IsPlain(run, policy) && GivesUp(cfg, base, End(cfg, s, run), e)
  {
    hide Inv, IsRun, End, CanStep, After, GivesUp, IsPlain, OnlyTouched, RowLocked, LastSequence, Holds, Count;
    var step := Fail(w);
    FailStep(cfg, s, step);
    StepKeepsInv(cfg, s, step);
    CarriesOn(cfg, base, s, w, e, c, Calling(r), Failed);
    var rest := FromFailed(cfg, base, Moved(s, w, Failed), w, e, c, policy);
    PlainPrepend(step, rest, policy);
    Prepend(cfg, s, step, rest);
    run := [step] + rest;
  }

  /** A patient caller is answered 200 and hears it. */
  lemma PatienceIsHeard(cfg: Config, s: World, e: Event, count: nat, policy: Policy)
    requires WellNumbered(cfg.catalogue) && SellerOk(cfg.catalogue, s.seller) && GapOk(s.orders, s.seller.orders)
    requires Known(cfg.catalogue, e) && e.sequence <= LastSequence(s.orders, e.Key()) + 1 && policy.idempotent
    ensures count >= Patience(policy) ==>
          Status(s.seller, e, count, policy) == OK && !Dropped(s.seller, e, count, policy)
  {
    hide WellNumbered, SellerOk, GapOk, Status, Applies, LastSequence, Known;
    SellerLemmas.ConflictNeedsForgottenKey(cfg.catalogue, s.orders, s.seller, e, count, policy);
  }

  lemma DecisionChanges(s: World, r: nat, e: Event, policy: Policy)
    requires r in s.requests && s.requests[r].stage.Counted? && s.requests[r].event == e
    requires s.requests[r].stage.attempt < |s.seller.attempts|
    ensures var t, count := AfterDecide(s, r, policy), s.requests[r].stage.count;
            && t == s.(seller := t.seller, requests := t.requests)
            && t.seller.counts == s.seller.counts && r in t.requests
            && t.requests[r].stage
                  == Answered(Status(s.seller, e, count, policy), Dropped(s.seller, e, count, policy))
  {
    hide Status, Dropped, Applies;
  }

  lemma SameTablesCarry(
    cfg: Config, base: World, s: World, t: World, w: nat, e: Event, c: Claim, phase: Phase)
    requires Carrying(cfg, base, s, w, e, c, phase) && Inv(cfg, t)
    requires t == s.(seller := t.seller, requests := t.requests)
    ensures Carrying(cfg, base, t, w, e, c, phase)
  {
    hide Inv, Holds, RowLocked, LastSequence;
  }

  lemma FromCounted(cfg: Config, base: World, s: World, w: nat, e: Event, c: Claim, r: nat, policy: Policy)
    returns (run: seq<Step>)
    requires Carrying(cfg, base, s, w, e, c, Calling(r)) && policy.idempotent
    requires r in s.requests && s.requests[r].event == e && s.requests[r].stage.Counted?
    requires s.requests[r].stage.count == Count(base.seller, e.eventId)
    requires Count(s.seller, e.eventId) == Count(base.seller, e.eventId) + 1
    ensures IsRun(cfg, s, run) && IsPlain(run, policy) && Tries(cfg, base, End(cfg, s, run), e, policy)
  {
    RequestIsCleared(cfg, s, r);
    hide Inv, SellerOk, GapOk, WellNumbered, IsRun, End, CanStep, After, AfterDecide, OnlyTouched, RowLocked,
      LastSequence,
      Holds, Status, Dropped, Delivers, GivesUp, IsPlain, Known;
    var step := Decide(r, policy);
    DecideStep(cfg, s, step);
    StepKeepsInv(cfg, s, step);
    var t := AfterDecide(s, r, policy);
    DecisionChanges(s, r, e, policy);
    PatienceIsHeard(cfg, s, e, s.requests[r].stage.count, policy);
    SameTablesCarry(cfg, base, s, t, w, e, c, Calling(r));
    var rest;
    if t.requests[r].stage == Answered(OK, false) {
      rest := FromHeard(cfg, base, t, w, e, c, r, policy);
    } else {
      rest := FromUnheard(cfg, base, t, w, e, c, r, policy);
    }
    PlainPrepend(step, rest, policy);
    Prepend(cfg, s, step, rest);
    run := [step] + rest;
  }

  lemma ArrivalChanges(s: World, r: nat, e: Event)
    requires r in s.requests && s.requests[r] == Request(e, Travelling)
    ensures var t := AfterArrive(s, r);
            && t == s.(seller := t.seller, requests := t.requests) && r in t.requests && t.requests[r].event == e
            && t.requests[r].stage.Counted? && t.requests[r].stage.count == Count(s.seller, e.eventId)
            && Count(t.seller, e.eventId) == Count(s.seller, e.eventId) + 1
  {
  }

  lemma FromSent(cfg: Config, base: World, s: World, w: nat, e: Event, c: Claim, r: nat, policy: Policy)
    returns (run: seq<Step>)
    requires Carrying(cfg, base, s, w, e, c, Calling(r)) && policy.idempotent
    requires r in s.requests && s.requests[r] == Request(e, Travelling)
    requires Count(s.seller, e.eventId) == Count(base.seller, e.eventId)
    ensures IsRun(cfg, s, run) && IsPlain(run, policy) && Tries(cfg, base, End(cfg, s, run), e, policy)
  {
    hide Inv, IsRun, End, CanStep, After, AfterArrive, OnlyTouched, RowLocked, LastSequence, Holds, Tries, IsPlain,
      Count;
    var step := Arrive(r);
    ArriveStep(cfg, s, step);
    StepKeepsInv(cfg, s, step);
    var t := AfterArrive(s, r);
    ArrivalChanges(s, r, e);
    SameTablesCarry(cfg, base, s, t, w, e, c, Calling(r));
    var rest := FromCounted(cfg, base, t, w, e, c, r, policy);
    PlainPrepend(step, rest, policy);
    Prepend(cfg, s, step, rest);
    run := [step] + rest;
  }

  lemma FromChecked(cfg: Config, base: World, s: World, w: nat, e: Event, c: Claim, policy: Policy)
    returns (run: seq<Step>)
    requires Carrying(cfg, base, s, w, e, c, Checked) && policy.idempotent
    requires Count(s.seller, e.eventId) == Count(base.seller, e.eventId)
    ensures IsRun(cfg, s, run) && IsPlain(run, policy) && Tries(cfg, base, End(cfg, s, run), e, policy)
  {
    hide Inv, IsRun, End, CanStep, After, OnlyTouched, RowLocked, LastSequence, Holds, Tries, IsPlain, Count;
    var r := Fresh(s.requests.Keys);
    var step := Send(w, r);
    SendStep(cfg, s, step);
    StepKeepsInv(cfg, s, step);
    var t := AfterSend(s, w, r);
    assert t.workers - {w} == s.workers - {w};
    SameTablesTouched(base, s, t, e.eventId);
    assert Carrying(cfg, base, t, w, e, c, Calling(r));
    var rest := FromSent(cfg, base, t, w, e, c, r, policy);
    PlainPrepend(step, rest, policy);
    Prepend(cfg, s, step, rest);
    run := [step] + rest;
  }

  lemma ChecksMove(cfg: Config, s: World, w: nat, e: Event)
    requires InPhase(s, w, Ready) && s.workers[w].event == e && e.eventId !in s.effects
    requires e.sequence == LastSequence(s.orders, e.Key()) + 1
    ensures CanStep(cfg, s, CheckDelivered(w)) && After(cfg, s, CheckDelivered(w)) == Moved(s, w, Undelivered)
    ensures var mid := Moved(s, w, Undelivered);
            CanStep(cfg, mid, CheckPredecessor(w)) && After(cfg, mid, CheckPredecessor(w)) == Moved(mid, w, Checked)
  {
    hide LastSequence;
  }

  lemma FromReady(cfg: Config, base: World, s: World, w: nat, e: Event, c: Claim, policy: Policy)
    returns (run: seq<Step>)
    requires Carrying(cfg, base, s, w, e, c, Ready) && policy.idempotent
    requires Count(s.seller, e.eventId) == Count(base.seller, e.eventId)
    ensures IsRun(cfg, s, run) && IsPlain(run, policy) && Tries(cfg, base, End(cfg, s, run), e, policy)
  {
    hide Inv, IsRun, End, CanStep, After, OnlyTouched, RowLocked, LastSequence, Holds, Tries, IsPlain, Count;
    var first, second := CheckDelivered(w), CheckPredecessor(w);
    ChecksMove(cfg, s, w, e);
    StepKeepsInv(cfg, s, first);
    var mid := Moved(s, w, Undelivered);
    CarriesOn(cfg, base, s, w, e, c, Ready, Undelivered);
    StepKeepsInv(cfg, mid, second);
    CarriesOn(cfg, base, mid, w, e, c, Undelivered, Checked);
    var rest := FromChecked(cfg, base, Moved(mid, w, Checked), w, e, c, policy);
    PlainPrepend(second, rest, policy);
    PlainPrepend(first, [second] + rest, policy);
    Prepend(cfg, mid, second, rest);
    Prepend(cfg, s, first, [second] + rest);
    run := [first] + ([second] + rest);
  }

  // ---- the oldest next row

  /** Of all the next rows of all orders, none has arrived before this one. */
  ghost predicate IsFirst(s: World, id: EventId) {
    IsNextRow(s, id) && forall j :: IsNextRow(s, j) ==> ReadyRows.NotLater(s.inbox[id], s.inbox[j])
  }

  lemma NextRowIsStored(s: World, id: EventId)
    requires IsNextRow(s, id)
    ensures id in s.inbox
  {
  }

  lemma SomeRowIsFirst(s: World, next: EventId) returns (id: EventId)
    requires IsNextRow(s, next)
    ensures IsFirst(s, id)
  {
    var rows := set i | i in s.inbox && IsNextRow(s, i) :: s.inbox[i];
    assert s.inbox[next] in rows;
    var oldest := ReadyRows.Oldest(rows);
    id :| id in s.inbox && IsNextRow(s, id) && s.inbox[id] == oldest;
    hide IsNextRow, ReadyRows.NotLater;
    forall j | IsNextRow(s, j)
      ensures ReadyRows.NotLater(s.inbox[id], s.inbox[j])
    {
      assert j in s.inbox by { NextRowIsStored(s, j); }
      assert s.inbox[j] in rows;
    }
  }

  lemma FirstIsListed(cfg: Config, s: World, t: int, id: EventId, step: Step, limit: nat)
    requires IsFirst(s, id) && Settled(cfg, s, t) && cfg.limits.sellerPermits >= 1 && limit >= 1
    requires step.TryClaim? && step.event.eventId == id && step.appNow == t && step.at.row == t
    ensures IsListedClaim(cfg, s, step, limit)
  {
    var q := ReadyRows.Query(t, t, cfg.limits.sellerPermits, {}, limit);
    SettledRowIsCandidate(cfg, s, t, q, id);
    var candidates := ReadyRows.Candidates(TablesOf(s), q);
    hide Settled, ReadyRows.Candidates, ReadyRows.Answers, ReadyRows.NotLater, IsNextRow;
    forall row | row in candidates
      ensures ReadyRows.NotLater(s.inbox[id], row)
    {
      CandidateIsNextRow(s, q, row);
      var j :| IsNextRow(s, j) && s.inbox[j] == row;
    }
    var rows := ReadyRows.OldestMayBeListed(TablesOf(s), q, s.inbox[id]);
  }

  /** An attempt that gives up leaves the row where it was in line. */
  lemma FirstStays(base: World, t: World, id: EventId)
    requires IsFirst(base, id) && OnlyTouched(base, t, id)
    ensures IsFirst(t, id)
  {
    hide LastSequence, PendingIds;
    forall j | IsNextRow(t, j)
      ensures ReadyRows.NotLater(t.inbox[id], t.inbox[j])
    {
      assert IsNextRow(base, j);
    }
  }

  lemma NextIsKnown(cfg: Config, s: World, id: EventId)
    requires Inv(cfg, s) && IsNextRow(s, id)
    ensures Known(cfg.catalogue, s.inbox[id].event) && s.inbox[id].event.eventId == id && id !in s.effects
  {
    hide LedgerOk, TokensOk, WorkersOk, LocksOk, OrderOk, CallsOk, SellerOk, GapOk, OffsetsOk, CapacityOk, BudgetOk,
      LastSequence;
    assert RowOk(cfg.catalogue, s.effects, s.orders, id, s.inbox[id]);
  }

  /** One attempt at the oldest next row: it is delivered, or it waits again for a seller that has counted one more. */
  lemma AttemptFirst(cfg: Config, s: World, id: EventId, instance: InstanceId, policy: Policy, limit: nat)
    returns (run: seq<Step>)
    requires Inv(cfg, s) && cfg.inboxMode && Workable(cfg.limits) && IsFirst(s, id) && !RowLocked(s.workers, id)
    requires policy.idempotent && limit >= 1
    ensures IsRun(cfg, s, run) && Obeys(cfg, s, run, policy, limit)
    ensures Tries(cfg, s, End(cfg, s, run), s.inbox[id].event, policy)
  {
    hide Inv, IsRun, End, CanStep, After, Known, Settled, Tries, Obeys, IsPlain, IsListedClaim, RowLocked;
    NextIsKnown(cfg, s, id);
    var e := s.inbox[id].event;
    var t := SettlingTime(cfg, s);
    var w := Fresh(s.workers.Keys);
    var claim, c := ClaimToCarry(cfg, s, w, instance, e, t);
    FirstIsListed(cfg, s, t, id, claim, limit);
    var claimed := After(cfg, s, claim);
    hide IsFirst, Carrying;
    var rest := FromReady(cfg, s, claimed, w, e, c, policy);
    PlainObeys(cfg, claimed, rest, policy, limit);
    ClaimObeys(cfg, s, claim, rest, policy, limit);
    Prepend(cfg, s, claim, rest);
    run := [claim] + rest;
  }

  lemma TriesThenDelivers(cfg: Config, base: World, mid: World, t: World, e: Event)
    requires OnlyTouched(base, mid, e.eventId) && Delivers(cfg, mid, t, e)
    ensures Delivers(cfg, base, t, e)
  {
    hide Inv;
  }

  lemma FirstIsNext(cfg: Config, s: World, id: EventId)
    requires Inv(cfg, s) && IsFirst(s, id)
    ensures id in s.inbox && s.inbox[id].event.eventId == id
  {
    NextIsKnown(cfg, s, id);
  }

  lemma TouchedEvent(base: World, t: World, id: EventId)
    requires OnlyTouched(base, t, id)
    ensures id in t.inbox && t.inbox[id].event == base.inbox[id].event
  {
  }

  /** As many attempts as it takes. */
  lemma {:induction false} DeliverFirst(
    cfg: Config, s: World, id: EventId, instance: InstanceId, policy: Policy, limit: nat) returns (run: seq<Step>)
    requires Inv(cfg, s) && cfg.inboxMode && Workable(cfg.limits) && IsFirst(s, id) && !RowLocked(s.workers, id)
    requires policy.idempotent && limit >= 1
    ensures IsRun(cfg, s, run) && Obeys(cfg, s, run, policy, limit)
    ensures Delivers(cfg, s, End(cfg, s, run), s.inbox[id].event)
    decreases Patience(policy) - Count(s.seller, id)
  {
    hide Inv, IsRun, End, Obeys, IsFirst, Workable, Delivers, OnlyTouched, Patience, Count, RowLocked;
    FirstIsNext(cfg, s, id);
    var e := s.inbox[id].event;
    run := AttemptFirst(cfg, s, id, instance, policy, limit);
    var mid := End(cfg, s, run);
    if !Delivers(cfg, s, mid, e) {
      FirstStays(s, mid, id);
      TouchedEvent(s, mid, id);
      var rest := DeliverFirst(cfg, mid, id, instance, policy, limit);
      TriesThenDelivers(cfg, s, mid, End(cfg, mid, rest), e);
      ObeysJoin(cfg, s, run, rest, policy, limit);
      run := run + rest;
    }
  }

  // ---- draining

  /** Nothing that could be delivered is left open. */
  ghost predicate Drained(s: World) {
    forall id :: id in s.inbox && HasPredecessors(s, id) ==> s.inbox[id].state == DONE
  }

  lemma NextToDrain(s: World) returns (id: EventId)
    requires !Drained(s)
    ensures id in s.inbox && s.inbox[id].state != DONE && HasPredecessors(s, id)
  {
    id :| id in s.inbox && HasPredecessors(s, id) && s.inbox[id].state != DONE;
  }

  /** As many rows were closed as deliveries recorded. */
  predicate ClosedOnePerDelivery(s: World, t: World) {
    |PendingIds(s.inbox)| - |PendingIds(t.inbox)| == |t.effects| - |s.effects|
  }

  lemma DeliveryCounts(cfg: Config, base: World, t: World, e: Event)
    requires Delivers(cfg, base, t, e)
    ensures Inv(cfg, t) && |PendingIds(t.inbox)| == |PendingIds(base.inbox)| - 1 && |t.effects| == |base.effects| + 1
  {
    hide Inv, PendingIds;
    assert t.effects.Keys == base.effects.Keys + {e.eventId};
  }

  lemma UnlockObeys(cfg: Config, s: World, id: EventId, policy: Policy, limit: nat) returns (run: seq<Step>)
    requires Inv(cfg, s)
    ensures IsRun(cfg, s, run) && Obeys(cfg, s, run, policy, limit)
    ensures var t := End(cfg, s, run);
            Inv(cfg, t) && !RowLocked(t.workers, id) && t == s.(workers := t.workers)
  {
    hide Inv, CanStep, After;
    run := Unlock(cfg, s, id);
    PlainObeys(cfg, s, run, policy, limit);
  }

  lemma SameTablesFirst(s: World, t: World, id: EventId)
    requires IsFirst(s, id) && t.inbox == s.inbox && t.orders == s.orders
    ensures IsFirst(t, id)
  {
    hide ReadyRows.NotLater, LastSequence;
    forall j | IsNextRow(t, j)
      ensures ReadyRows.NotLater(t.inbox[id], t.inbox[j])
    {
      assert IsNextRow(s, j);
    }
  }

  /** Some continuation records one more delivery and closes one more row. */
  lemma CanDeliverOneMore(cfg: Config, s: World, instance: InstanceId, policy: Policy, limit: nat)
    returns (run: seq<Step>)
    requires Inv(cfg, s) && cfg.inboxMode && Workable(cfg.limits) && !Drained(s) && policy.idempotent && limit >= 1
    ensures IsRun(cfg, s, run) && Obeys(cfg, s, run, policy, limit)
    ensures var t := End(cfg, s, run);
            Inv(cfg, t) && |PendingIds(t.inbox)| == |PendingIds(s.inbox)| - 1 && |t.effects| == |s.effects| + 1
  {
    var open := NextToDrain(s);
    hide Inv, IsRun, End, Drained, PendingIds, Workable, HasPredecessors, Delivers, Obeys, RowLocked, IsFirst, Known;
    var next := NextIsStored(cfg, s, open);
    var id := SomeRowIsFirst(s, next);
    var unlock := UnlockObeys(cfg, s, id, policy, limit);
    var free := End(cfg, s, unlock);
    SameTablesFirst(s, free, id);
    FirstIsNext(cfg, free, id);
    var rest := DeliverFirst(cfg, free, id, instance, policy, limit);
    DeliveryCounts(cfg, free, End(cfg, free, rest), free.inbox[id].event);
    ObeysJoin(cfg, s, unlock, rest, policy, limit);
    run := unlock + rest;
  }

  lemma NothingRun(cfg: Config, s: World, policy: Policy, limit: nat)
    ensures IsRun(cfg, s, []) && End(cfg, s, []) == s && Obeys(cfg, s, [], policy, limit)
  {
  }

  /** Some continuation closes every row that can be delivered at all, one row with each delivery it records. */
  lemma {:induction false} InboxCanDrain(cfg: Config, s: World, instance: InstanceId, policy: Policy, limit: nat)
    returns (run: seq<Step>)
    requires Inv(cfg, s) && cfg.inboxMode && Workable(cfg.limits) && policy.idempotent && limit >= 1
    ensures IsRun(cfg, s, run) && Inv(cfg, End(cfg, s, run)) && Obeys(cfg, s, run, policy, limit)
    ensures Drained(End(cfg, s, run)) && ClosedOnePerDelivery(s, End(cfg, s, run))
    decreases |PendingIds(s.inbox)|
  {
    hide Inv, IsRun, End, Drained, PendingIds, Workable, Obeys;
    if Drained(s) {
      run := [];
      NothingRun(cfg, s, policy, limit);
    } else {
      var first := CanDeliverOneMore(cfg, s, instance, policy, limit);
      var rest := InboxCanDrain(cfg, End(cfg, s, first), instance, policy, limit);
      ObeysJoin(cfg, s, first, rest, policy, limit);
      run := first + rest;
    }
  }

  lemma DrainedIsDelivered(cfg: Config, t: World, id: EventId)
    requires Inv(cfg, t) && Drained(t)
    ensures HasPredecessors(t, id) ==> id in t.effects
  {
    hide TokensOk, WorkersOk, LocksOk, OrderOk, CallsOk, SellerOk, GapOk, OffsetsOk, CapacityOk, BudgetOk, LedgerOk,
      WellNumbered;
    if HasPredecessors(t, id) {
      assert RowOk(cfg.catalogue, t.effects, t.orders, id, t.inbox[id]);
    }
  }

  /**
   * From every reachable state, and under every fault policy of the seller that honours the key, however many
   * failures it injects and even if it drops first answers: some continuation delivers every row whose
   * predecessors are stored or delivered, whatever gaps other orders have. It claims only rows that the query
   * lists, and closes one row with each delivery it records.
   */
  lemma EverythingStoredCanBeDelivered(
    cfg: Config, clock: int, past: seq<Step>, instance: InstanceId, policy: Policy, limit: nat)
    returns (run: seq<Step>)
    requires cfg.Valid() && cfg.inboxMode && Workable(cfg.limits) && IsRun(cfg, Initial(clock), past)
    requires policy.idempotent && limit >= 1
    ensures var s := End(cfg, Initial(clock), past);
            && IsRun(cfg, s, run) && Obeys(cfg, s, run, policy, limit)
            && ClosedOnePerDelivery(s, End(cfg, s, run))
            && forall id :: HasPredecessors(s, id) ==> id in End(cfg, s, run).effects
  {
    ReachableInv(cfg, clock, past);
    var s := End(cfg, Initial(clock), past);
    hide Inv, IsRun, End, ClosedOnePerDelivery, Drained, Workable, HasPredecessors, Obeys;
    run := InboxCanDrain(cfg, s, instance, policy, limit);
    forall id | HasPredecessors(s, id)
      ensures id in End(cfg, s, run).effects
    {
      PredecessorsStay(cfg, s, run, id);
      DrainedIsDelivered(cfg, End(cfg, s, run), id);
    }
  }
}
