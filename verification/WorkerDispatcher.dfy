/**
 * The dispatcher of one instance: what it admits, claims and hands to the pool, what becomes of the
 * tables on the way, and that every admission it makes is in the pool or released when it is through.
 */
module WorkerPool {
  import opened Domain
  import opened InboxTables
  import opened PartnerDatabase
  import opened InboxStore
  import opened AdmissionControl
  import opened LeaseKeeping
  import CompletionProtocol
  import opened Processor
  import opened ClaimedRuns
  import opened WorkerExecutor

  /** A listed row, with the clock readings and the outside answers that its claim will meet. */
  datatype Candidate = Candidate(
    task: AdmissionControl.Task,
    event: Event,
    admittedAt: int,
    breakerAdmits: bool,
    claimFails: bool,             // a lock wait or a deadlock ends the claim transaction
    permitsEnsured: bool,         // by then it had created the seller's permits
    at: ClaimClock,
    appNow: int,
    locked: bool,
    givenBackAt: int,
    giveBackFails: bool)          // so may the transaction that returns a refused row

  datatype Submission = Submission(task: AdmissionControl.Task, claim: Claim)

  /** The orders of the submitted operations. */
  function KeysOf(submitted: seq<Submission>): set<OrderKey> {
    set s | s in submitted :: s.task.key
  }

  /** Candidates come in the order of the clock, each as the task of its own event and order. */
  predicate InTurn(candidates: seq<Candidate>) {
    && (forall i :: 0 <= i < |candidates| ==> candidates[i].event.eventId == candidates[i].task.eventId)
    && (forall i :: 0 < i < |candidates| ==> candidates[i - 1].admittedAt <= candidates[i].admittedAt)
  }

  /** The claim a candidate gets, and the tables after it; none when it never comes to a claim. */
  function ClaimedFor(
    t: Tables, c: Candidate, owner: InstanceId, limits: Limits, cached: bool): (Tables, Option<Claim>)
  {
    if !c.breakerAdmits || c.claimFails then (t, None)
    else
      var (after, attempt) := Claiming(t, c.event, owner, limits, c.at, c.appNow, cached, c.locked);
      (after, attempt.claim)
  }

  /**
   * The tables after one candidate. When the pool refuses the task, the row and the permit are given back,
   * if that does not fail, but the attempt, the generation and a retry admission of the claim stay spent.
   */
  function Dispatched(
    t: Tables, c: Candidate, admitted: bool, owner: InstanceId, limits: Limits, cached: bool, taken: bool)
    : Tables
  {
    if !admitted then t
    else
      var (after, claim) := ClaimedFor(t, c, owner, limits, cached);
      if claim.Some? && !taken && !c.giveBackFails then
        after.(inbox := GivenBack(after.inbox, claim.value, c.givenBackAt, c.appNow),
               permits := Released(after.permits, claim.value))
      else after
  }

  /** The candidate's claim comes as far as making sure that the seller's permits exist. */
  predicate Looks(c: Candidate) {
    c.breakerAdmits && (c.claimFails ==> c.permitsEnsured)
  }

  /** Where a candidate's way ends, and the tables there. */
  lemma DispatchedCases(t: Tables, c: Candidate, owner: InstanceId, limits: Limits, cached: bool, taken: bool)
    ensures Dispatched(t, c, false, owner, limits, cached, taken) == t
    ensures var tables := Dispatched(t, c, true, owner, limits, cached, taken);
            if !c.breakerAdmits || c.claimFails then
              tables == t && ClaimedFor(t, c, owner, limits, cached) == (t, None)
            else
              var (after, attempt) := Claiming(t, c.event, owner, limits, c.at, c.appNow, cached, c.locked);
              && ClaimedFor(t, c, owner, limits, cached) == (after, attempt.claim)
              && tables == if attempt.claim.Some? && !taken && !c.giveBackFails then
                             after.(inbox := GivenBack(after.inbox, attempt.claim.value, c.givenBackAt, c.appNow),
                                    permits := Released(after.permits, attempt.claim.value))
                           else after
  {
    hide Claiming, GivenBack, Released;
  }

  /** What a recording that did not succeed leaves behind, and what one that did required. */
  lemma RecordingOutcome(t: Tables, e: Event, claim: Claim, now: int, doneAt: int)
    ensures var (after, outcome) := Recording(t, e, Some(claim), now, doneAt);
            && (outcome == Stale <==> !Holds(t.inbox, claim, now))
            && (outcome == Stale ==> after == t)
            && (outcome == Delivered ==> e.eventId in after.effects && e.eventId !in t.effects)
  {
  }

  /** The same of the whole processing, which records at most at its end. */
  lemma ProcessingOutcome(before: Tables, between: Tables, e: Event, claim: Claim, accepted: bool, at: Times)
    ensures var (after, outcome) := Processing(before, between, e, Some(claim), accepted, at);
            && (outcome == Stale ==> after == between && !Holds(between.inbox, claim, at.record))
            && (outcome == Delivered ==>
                  e.eventId in after.effects && e.eventId !in between.effects && Holds(between.inbox, claim, at.record))
  {
    hide Recording, FinishedDuplicate, LastSequence, Holds;
    RecordingOutcome(between, e, claim, at.record, at.doneAt);
  }

  /** A local admission runs an order that was idle; releasing it at once undoes it. */
  lemma AdmittedRuns(trace: Trace, finished: seq<EventId>, task: AdmissionControl.Task, at: int, s: Settings)
    requires Answer(trace, finished, task, false, at, s) == ADMITTED
    ensures var admitted := trace + [Admit(task.key, at, false, task.attempts > 0)];
            && task.key !in Running(trace) && |Running(trace)| < s.workers
            && Running(admitted) == Running(trace) + {task.key} && task.key in Running(admitted)
            && Running(admitted + [Op.Release(task.key, at)]) == Running(trace)
            && admitted != [] && LastTime(admitted) == at && LastTime(admitted + [Op.Release(task.key, at)]) == at
  {
    var op := Admit(task.key, at, false, task.attempts > 0);
    AfterAdmit(trace, op);
    AfterRelease(trace + [op], Op.Release(task.key, at));
  }

  lemma ClaimTokenIsFor(
    t: Tables, e: Event, owner: InstanceId, limits: Limits, at: ClaimClock, appNow: int, cached: bool,
    locked: bool)
    ensures var attempt := Claiming(t, e, owner, limits, at, appNow, cached, locked).1;
            && (attempt.result == Claimed <==> attempt.claim.Some?)
            && (attempt.claim.Some? ==> attempt.claim.value.eventId == e.eventId && attempt.claim.value.owner == owner)
  {
    hide ClaimEnds, FirstFree, WithPermits;
    var permits := if cached then t.permits else WithPermits(t.permits, e.sellerId, limits.sellerPermits);
    ClaimedRowExists(t.inbox, permits, t.admissions, t.orders, e, limits, at, appNow, locked);
  }

  /** The running operations are the earlier ones and, besides, the submitted ones, each once. */
  ghost predicate Joined(before: set<OrderKey>, running: set<OrderKey>, submitted: seq<Submission>) {
    running == before + KeysOf(submitted) && KeysOf(submitted) !! before && |KeysOf(submitted)| == |submitted|
  }

  lemma NothingSubmitted(before: set<OrderKey>)
    ensures KeysOf([]) == {} && Joined(before, before, [])
  {
  }

  lemma OneMoreSubmission(submitted: seq<Submission>, s: Submission)
    ensures KeysOf(submitted + [s]) == KeysOf(submitted) + {s.task.key}
  {
    assert forall x :: x in submitted + [s] <==> x in submitted || x == s;
    assert s in submitted + [s];
    forall key | key in KeysOf(submitted)
      ensures key in KeysOf(submitted + [s])
    {
      var x :| x in submitted && x.task.key == key;
      assert x in submitted + [s];
    }
  }

  /** What was handed over comes from the first candidates, under claims of the instance. */
  ghost predicate AllFrom(submitted: seq<Submission>, listed: seq<Candidate>, n: int, owner: InstanceId) {
    forall s :: s in submitted ==>
      && s.claim.eventId == s.task.eventId && s.claim.owner == owner
      && exists i :: 0 <= i < |listed| && i < n && listed[i].task == s.task
  }

  lemma OneMoreFrom(
    submitted: seq<Submission>, listed: seq<Candidate>, i: nat, n: int, owner: InstanceId, claim: Claim)
    requires AllFrom(submitted, listed, n, owner) && i < |listed| && i < n
    requires claim.eventId == listed[i].task.eventId && claim.owner == owner
    ensures AllFrom(submitted + [Submission(listed[i].task, claim)], listed, n, owner)
  {
  }

  lemma NothingFrom(listed: seq<Candidate>, n: int, owner: InstanceId)
    ensures AllFrom([], listed, n, owner)
  {
  }

  lemma OneMoreJoined(before: set<OrderKey>, running: set<OrderKey>, submitted: seq<Submission>, s: Submission)
    requires Joined(before, running, submitted) && s.task.key !in running
    ensures Joined(before, running + {s.task.key}, submitted + [s])
  {
    OneMoreSubmission(submitted, s);
  }

  lemma JoinedCounts(before: set<OrderKey>, running: set<OrderKey>, submitted: seq<Submission>)
    requires Joined(before, running, submitted)
    ensures |running| == |before| + |submitted|
  {
    assert |before + KeysOf(submitted)| == |before| + |KeysOf(submitted)|;
  }

  /** With nothing submitted, one more running operation is one that stays. */
  lemma AloneJoined(before: set<OrderKey>, running: set<OrderKey>, key: OrderKey)
    requires Joined(before, running, []) && key !in running
    ensures {key} !! before && Joined(before + {key}, running + {key}, [])
    ensures |running + {key}| == |before| + 1
  {
  }

  lemma IdleIsOutside(pool: Pool, running: set<OrderKey>, key: OrderKey)
    requires OnlyRunning(pool, running) && key !in running
    ensures InPool(pool, key) == 0
  {
    assert InPool(pool, key) <= One(key in running);
  }

  lemma RefusedIsUnchanged(pool: Pool, workers: int, key: OrderKey)
    ensures !Executed(pool, workers, key).1 ==> Executed(pool, workers, key).0 == pool
    ensures Executed(pool, workers, key).0.stopping == pool.stopping
  {
  }

  class WorkerDispatcher {
    const db: Database
    const inbox: InboxRepository
    const admission: AdmissionPolicy
    const processor: PartnerOrderProcessor
    const leases: LeaseKeeper
    const executor: TaskExecutor
    const owner: InstanceId
    const limits: Limits
    var running: bool
    ghost var restarted: bool    // it was started after a stop

    /** As long as it was not started again after a stop, a running dispatcher has a pool that takes tasks. */
    ghost predicate Valid()
      reads this, admission, admission.retryBudget, executor
    {
      && (running && executor.stopping ==> restarted)
      && inbox.db == db && processor.Valid() && processor.db == db && processor.inbox == inbox
      && admission.Valid() && executor.workers == admission.settings.workers
      && OnlyRunning(executor.Content(), Running(admission.trace))
    }

    /** The admission policy has not looked at a later clock than this. */
    ghost predicate Behind(now: int)
      reads admission, admission.retryBudget
    {
      admission.retryBudget.clock <= now && (admission.trace != [] ==> LastTime(admission.trace) <= now)
    }

    constructor (
      inbox: InboxRepository, admission: AdmissionPolicy, processor: PartnerOrderProcessor, leases: LeaseKeeper,
      executor: TaskExecutor, owner: InstanceId, limits: Limits)
      requires admission.Valid() && processor.Valid() && processor.db == inbox.db && processor.inbox == inbox
      requires executor.workers == admission.settings.workers
      requires OnlyRunning(executor.Content(), Running(admission.trace)) && !executor.stopping
      ensures Valid() && running && !restarted && this.inbox == inbox && this.admission == admission
      ensures this.processor == processor
      ensures this.leases == leases && this.executor == executor
      ensures db == inbox.db && this.owner == owner && this.limits == limits
    {
      this.db, this.inbox, this.admission, this.processor := inbox.db, inbox, admission, processor;
      this.leases, this.executor, this.owner, this.limits := leases, executor, owner, limits;
      running, restarted := true, false;
    }

    /**
     * Runs a claimed row inside a task of the pool. However it ends, the tables are those of its outcome,
     * the lease is renewed no longer and the admission is released once.
     */
    method RunClaimed(
      task: AdmissionControl.Task, e: Event, claim: Claim, accepted: bool, between: Tables,
      reportsBetween: map<EventId, CompletionProtocol.Report>, at: Times, givenBackAt: int, nextAt: int,
      giveBackFails: bool, ghost releasedAt: int)
      returns (outcome: Outcome)
      requires inbox.db == db && processor.Valid() && processor.db == db && processor.inbox == inbox
      requires admission.Valid()
      requires task.key in Running(admission.trace) && LastTime(admission.trace) <= releasedAt
      modifies db, processor.completions, admission, leases
      ensures admission.Valid() && admission.trace == old(admission.trace) + [Op.Release(task.key, releasedAt)]
      ensures admission.finished ==
        if IsDone(outcome) then Remember(old(admission.finished), task.eventId, admission.settings.finishedLimit)
        else old(admission.finished)
      ensures var before := old(leases.running);
              leases.running ==
                if claim.eventId in before && before[claim.eventId] == claim then before - {claim.eventId} else before
      ensures outcome == Processing(old(db.Content()), between, e, Some(claim), accepted, at).1
      ensures db.Content()
            == RunTables(old(db.Content()), between, e, claim, accepted, at, givenBackAt, nextAt, giveBackFails)
      ensures outcome == Stale ==> db.Content() == between && !Holds(between.inbox, claim, at.record)
      ensures outcome == Delivered ==>
        e.eventId in db.effects && e.eventId !in between.effects && Holds(between.inbox, claim, at.record)
    {
      hide AdmissionPolicy.Valid, Processing, GivenBack, Released, Holds, Running, LastTime, Remember;
      ProcessingOutcome(db.Content(), between, e, claim, accepted, at);
      var called;
      outcome, called := processor.Process(e, Some(claim), accepted, between, reportsBetween, at);
      if IsDone(outcome) {
        admission.MarkFinished(task.eventId);
      } else if outcome != Stale && !giveBackFails {
        var held := inbox.GiveBack(claim, givenBackAt, nextAt);
      }
      leases.Untrack(claim);
      admission.Release(task, releasedAt);
    }

    /**
     * Hands a claimed row to the pool, or undoes what can be undone when the pool refuses: the lease is not
     * renewed, the row goes back and the operation is released. If giving back fails, its exception ends the
     * pass before the operation is released.
     */
    method HandOver(c: Candidate, claim: Claim, ghost before: set<OrderKey>) returns (taken: bool, stuck: bool)
      requires inbox.db == db && admission.Valid() && executor.workers == admission.settings.workers
      requires c.task.key !in before && |before| < executor.workers && OnlyRunning(executor.Content(), before)
      requires c.task.key in Running(admission.trace) && Running(admission.trace) == before + {c.task.key}
      requires LastTime(admission.trace) <= c.admittedAt
      modifies db, admission, leases, executor
      ensures admission.Valid() && taken == !executor.stopping && executor.stopping == old(executor.stopping)
      ensures stuck == (executor.stopping && c.giveBackFails)
      ensures OnlyRunning(executor.Content(), if taken || stuck then before + {c.task.key} else before)
      ensures admission.finished == old(admission.finished)
      ensures taken || stuck ==> db.Content() == old(db.Content()) && admission.trace == old(admission.trace)
      ensures taken ==> leases.running == old(leases.running)[claim.eventId := claim]
      ensures !taken ==> leases.running == old(leases.running) - {claim.eventId}
      ensures !taken && !stuck ==>
        && db.Content() == old(db.Content()).(
             inbox := GivenBack(old(db.inbox), claim, c.givenBackAt, c.appNow),
             permits := Released(old(db.permits), claim))
        && admission.trace == old(admission.trace) + [Op.Release(c.task.key, c.admittedAt)]
    {
      hide AdmissionPolicy.Valid, Running, LastTime, OnlyRunning, Executed, GivenBack, Released, InPool;
      stuck := false;
      leases.Track(claim);
      MoreRunning(executor.Content(), before, before + {c.task.key});
      IdleIsOutside(executor.Content(), before, c.task.key);
      AdmittedIsTaken(executor.Content(), before + {c.task.key}, executor.workers, c.task.key);
      RefusedIsUnchanged(executor.Content(), executor.workers, c.task.key);
      taken := executor.Execute(c.task.key);
      if taken { return; }
      leases.Untrack(claim);
      if c.giveBackFails { return taken, true; }
      var held := inbox.GiveBack(claim, c.givenBackAt, c.appNow);
      admission.Release(c.task, c.admittedAt);
    }

    /** The claim of an admitted candidate, unless the breaker or a failing transaction is in its way. */
    method ClaimCandidate(c: Candidate) returns (claim: Option<Claim>)
      requires inbox.db == db
      modifies db, inbox
      ensures (db.Content(), claim) == ClaimedFor(
              old(db.Content()), c, owner, limits, c.event.sellerId in old(inbox.sellersWithPermits))
      ensures inbox.sellersWithPermits
            == old(inbox.sellersWithPermits)
              + (if c.breakerAdmits && (c.claimFails ==> c.permitsEnsured) then {c.event.sellerId} else {})
      ensures claim.Some? ==> claim.value.eventId == c.event.eventId && claim.value.owner == owner
    {
      hide Claiming;
      if !c.breakerAdmits { return None; }
      if c.claimFails {
        inbox.ClaimRolledBack(c.event.sellerId, c.permitsEnsured);
        return None;
      }
      ClaimTokenIsFor(db.Content(), c.event, owner, limits, c.at, c.appNow,
        c.event.sellerId in inbox.sellersWithPermits,
        c.locked);
      var attempt := inbox.Claim(c.event, owner, limits, c.at, c.appNow, c.locked);
      claim := attempt.claim;
    }

    /** An admitted candidate: claimed and handed over, or released unless a failing give back ends the pass. */
    method DispatchAdmitted(c: Candidate, ghost before: set<OrderKey>) returns (claim: Option<Claim>, stuck: bool)
      requires inbox.db == db && admission.Valid() && executor.workers == admission.settings.workers
      requires c.task.key !in before && |before| < executor.workers && OnlyRunning(executor.Content(), before)
      requires c.task.key in Running(admission.trace) && Running(admission.trace) == before + {c.task.key}
      requires LastTime(admission.trace) <= c.admittedAt && c.event.eventId == c.task.eventId
      modifies db, inbox, admission, leases, executor
      ensures admission.Valid() && executor.stopping == old(executor.stopping)
      ensures OnlyRunning(executor.Content(), if claim.Some? || stuck then before + {c.task.key} else before)
      ensures var cached := c.event.sellerId in old(inbox.sellersWithPermits);
              var granted := ClaimedFor(old(db.Content()), c, owner, limits, cached).1;
              && db.Content() == Dispatched(old(db.Content()), c, true, owner, limits, cached, !executor.stopping)
              && claim == (if executor.stopping then None else granted)
              && stuck == (granted.Some? && executor.stopping && c.giveBackFails)
      ensures inbox.sellersWithPermits
            == old(inbox.sellersWithPermits)
              + if Looks(c) then {c.event.sellerId} else {}
      ensures claim.Some? || stuck ==> admission.trace == old(admission.trace)
      ensures claim.None? && !stuck ==>
        admission.trace == old(admission.trace) + [Op.Release(c.task.key, c.admittedAt)]
      ensures claim.Some? ==>
        && claim.value.eventId == c.task.eventId && claim.value.owner == owner
        && leases.running == old(leases.running)[claim.value.eventId := claim.value]
      ensures claim.None? && old(leases.running) != leases.running ==>
        leases.running == old(leases.running) - {c.task.eventId}
    {
      hide AdmissionPolicy.Valid, Running, LastTime, OnlyRunning, Executed, GivenBack, Released, InPool, ClaimedFor;
      stuck := false;
      claim := ClaimCandidate(c);
      if claim.None? {
        admission.Release(c.task, c.admittedAt);
        return;
      }
      var taken;
      taken, stuck := HandOver(c, claim.value, before);
      if !taken {
        claim := None;
      }
    }

    /**
     * One candidate; the result is the claim it was handed to the pool with, if it was, and whether the pass
     * ends with it. It is handed over exactly when it is admitted and claimed and the pool is not stopping.
     */
    method Dispatch(c: Candidate) returns (claim: Option<Claim>, stuck: bool)
      requires Valid() && Behind(c.admittedAt) && c.event.eventId == c.task.eventId
      modifies db, inbox, admission, admission.retryBudget, leases, executor
      ensures Valid() && Behind(c.admittedAt) && executor.stopping == old(executor.stopping)
      ensures var admitted :=
                Answer(old(admission.trace), old(admission.finished), c.task, false, c.admittedAt, admission.settings)
                  == ADMITTED;
              var cached := c.event.sellerId in old(inbox.sellersWithPermits);
              var granted := ClaimedFor(old(db.Content()), c, owner, limits, cached).1;
              && db.Content() == Dispatched(old(db.Content()), c, admitted, owner, limits, cached, !executor.stopping)
              && claim == (if admitted && !executor.stopping then granted else None)
              && stuck == (admitted && granted.Some? && executor.stopping && c.giveBackFails)
              && inbox.sellersWithPermits == old(inbox.sellersWithPermits)
                 + (if admitted && Looks(c) then {c.event.sellerId} else {})
      ensures claim.Some? ==>
        && claim.value.eventId == c.task.eventId && claim.value.owner == owner
        && claim.value.eventId in leases.running && leases.running[claim.value.eventId] == claim.value
      ensures claim.Some? || stuck ==>
        && c.task.key !in Running(old(admission.trace))
        && Running(admission.trace) == Running(old(admission.trace)) + {c.task.key}
      ensures claim.None? && !stuck ==> Running(admission.trace) == Running(old(admission.trace))
      ensures claim.None? && old(leases.running) != leases.running ==>
        leases.running == old(leases.running) - {c.task.eventId}
    {
      hide AdmissionPolicy.Valid, Running, LastTime, Claiming, Answer, OnlyRunning, Executed, InPool, Remember, Looks,
        RollingBudget.RollingWindowBudget.Valid, GivenBack, Released, ClaimedFor;
      claim, stuck := None, false;
      var decision := admission.TryAdmit(c.task, false, c.admittedAt);
      if decision.admitted {
        AdmittedRuns(old(admission.trace), admission.finished, c.task, c.admittedAt, admission.settings);
        claim, stuck := DispatchAdmitted(c, Running(old(admission.trace)));
      }
    }

    /**
     * One pass over the listed rows, as far as the query's limit of four per free worker goes. When it
     * returns, exactly the handed over operations have joined the running ones; if a refused row could not
     * be given back, so has its operation, which nothing releases any more.
     */
    method DispatchInbox(listed: seq<Candidate>) returns (submitted: seq<Submission>, stuck: set<OrderKey>)
      requires Valid() && InTurn(listed) && (listed != [] ==> Behind(listed[0].admittedAt))
      modifies db, inbox, admission, admission.retryBudget, leases, executor
      ensures Valid()
      ensures stuck !! Running(old(admission.trace)) && |stuck| <= 1 && (stuck != {} ==> executor.stopping)
      ensures Joined(Running(old(admission.trace)) + stuck, Running(admission.trace), submitted)
      ensures |Running(admission.trace)| == |Running(old(admission.trace))| + |stuck| + |submitted|
      ensures var free := admission.settings.workers - old(admission.active);
              && (free <= 0 ==> submitted == [] && stuck == {} && db.Content() == old(db.Content()))
              && AllFrom(submitted, listed, 4 * free, owner)
      ensures executor.stopping ==> submitted == []
    {
      hide AdmissionPolicy.Valid, RollingBudget.RollingWindowBudget.Valid, Running, LastTime, KeysOf, OnlyRunning,
        Dispatched, ClaimedFor, Answer, AllFrom, Joined, PartnerOrderProcessor.Valid, Looks;
      submitted, stuck := [], {};
      ghost var before := Running(admission.trace);
      assert before + {} == before;
      NothingSubmitted(before);
      JoinedCounts(before, before, []);
      var free := admission.settings.workers - admission.active;
      NothingFrom(listed, 4 * free, owner);
      if free <= 0 { return; }
      var limit := if |listed| < 4 * free then |listed| else 4 * free;
      for i := 0 to limit
        invariant Valid() && (i < limit ==> Behind(listed[i].admittedAt))
        invariant Joined(before, Running(admission.trace), submitted)
        invariant AllFrom(submitted, listed, 4 * free, owner)
        invariant executor.stopping == old(executor.stopping) && (executor.stopping ==> submitted == [])
      {
        if admission.active >= admission.settings.workers { break; }
        assert i + 1 < limit ==> listed[i].admittedAt <= listed[i + 1].admittedAt;
        ghost var running := Running(admission.trace);
        var claim, aborted := Dispatch(listed[i]);
        if aborted {
          stuck := {listed[i].task.key};
          AloneJoined(before, running, listed[i].task.key);
          return;
        }
        if claim.Some? {
          OneMoreJoined(before, running, submitted, Submission(listed[i].task, claim.value));
          OneMoreFrom(submitted, listed, i, 4 * free, owner, claim.value);
          submitted := submitted + [Submission(listed[i].task, claim.value)];
        }
      }
      JoinedCounts(before, Running(admission.trace), submitted);
    }

    /**
     * One dispatch of the inbox mode: a pass, unless the dispatcher is stopped. Every claimed row of the pass finds
     * its place in the pool, unless the dispatcher was started again after a stop.
     */
    method DispatchOnce(listed: seq<Candidate>) returns (submitted: seq<Submission>, stuck: set<OrderKey>)
      requires Valid() && InTurn(listed) && (listed != [] ==> Behind(listed[0].admittedAt))
      modifies db, inbox, admission, admission.retryBudget, leases, executor
      ensures Valid() && running == old(running) && restarted == old(restarted)
      ensures !running ==> submitted == [] && stuck == {} && db.Content() == old(db.Content())
      ensures running && !restarted ==> stuck == {} && !executor.stopping
      ensures stuck !! Running(old(admission.trace)) && |stuck| <= 1
      ensures Joined(Running(old(admission.trace)) + stuck, Running(admission.trace), submitted)
    {
      hide AdmissionPolicy.Valid, Running, LastTime, KeysOf, OnlyRunning, AllFrom, Joined;
      if !running {
        submitted, stuck := [], {};
        assert Running(admission.trace) + {} == Running(admission.trace);
        NothingSubmitted(Running(admission.trace));
        return;
      }
      submitted, stuck := DispatchInbox(listed);
    }

    method Start()
      requires Valid()
      modifies this
      ensures Valid() && running && restarted == (old(restarted) || executor.stopping)
    {
      running, restarted := true, restarted || executor.stopping;
    }

    /** No pass is under way, and none will begin; what is in the pool is drained. */
    method Stop()
      requires Valid()
      modifies this, executor
      ensures Valid() && !running && restarted == old(restarted)
      ensures executor.Content() == old(executor.Content()).(stopping := true)
    {
      running := false;
      executor.Shutdown();
    }
  }
}
