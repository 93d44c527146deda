/** What the dispatcher does with one candidate, whatever becomes of it, as a run of the delivery protocol. */
module DispatchRuns {
  import opened Domain
  import opened InboxTables
  import opened PartnerDatabase
  import opened DeliveryProtocol
  import opened InboxStore
  import opened ClaimedRuns
  import opened WorkerPool
  import RepositoryRefinement

  /** A fresh claim's worker whose task the pool refused: an exception, and the row goes back if it can. */
  lemma RefusalIsARun(cfg: Config, s: World, w: nat, e: Event, c: Claim, now: int, nextAt: int, keeps: bool)
    returns (run: seq<Step>)
    requires Runs(s, w, e, c) && s.workers[w].phase == Ready
    ensures IsRun(cfg, s, run) && w !in End(cfg, s, run).workers
    ensures TablesOf(End(cfg, s, run)) == if keeps then TablesOf(s) else
              TablesOf(s).(inbox := GivenBack(s.inbox, c, now, nextAt), permits := Released(s.permits, c))
  {
    hide CanStep, After, IsRun, End, GivenBack, Released;
    var failed := Moved(s, w, Failed);
    FailStep(cfg, s, Fail(w));
    StaysRunning(s, failed, w, e, c);
    GivingBack(cfg, failed, w, e, c, now, nextAt, keeps);
    Prepend(cfg, s, Fail(w), [LastStep(w, now, nextAt, keeps)]);
    run := [Fail(w)] + [LastStep(w, now, nextAt, keeps)];
  }

  lemma ClaimRuns(cfg: Config, s: World, w: nat, owner: InstanceId, e: Event, at: ClaimClock, appNow: int, cached: bool)
    requires w !in s.workers
    ensures var locked := RowLocked(s.workers, e.eventId);
            var (tables, attempt) := Claiming(TablesOf(s), e, owner, cfg.limits, at, appNow, cached, locked);
            var t := AfterClaim(cfg, s, w, owner, e, at, appNow, cached);
            && TablesOf(t) == tables
            && (attempt.claim.Some? ==> Runs(t, w, e, attempt.claim.value) && t.workers[w].phase == Ready)
            && (attempt.claim.None? ==> t.workers == s.workers)
  {
    hide AfterClaim, Claiming, RowLocked;
    RepositoryRefinement.ClaimIsTheStep(cfg, s, w, owner, e, at, appNow, cached);
    var t := AfterClaim(cfg, s, w, owner, e, at, appNow, cached);
    assert w in t.workers ==> t.workers - {w} == s.workers;
  }

  /**
   * A candidate's way through the dispatcher is a run of the protocol with the tables of the method. It ends
   * with a worker at the event if the operation is handed over, and without one otherwise.
   */
  lemma DispatchIsARun(
    cfg: Config, s: World, w: nat, c: Candidate, admitted: bool, owner: InstanceId, cached: bool, taken: bool)
    returns (run: seq<Step>)
    requires cfg.inboxMode && w !in s.workers && Known(cfg.catalogue, c.event)
    requires c.at.Ordered() && s.clock <= c.at.row && (c.locked <==> RowLocked(s.workers, c.event.eventId))
    ensures IsRun(cfg, s, run)
    ensures var t, claim := End(cfg, s, run), ClaimedFor(TablesOf(s), c, owner, cfg.limits, cached).1;
            && TablesOf(t) == Dispatched(TablesOf(s), c, admitted, owner, cfg.limits, cached, taken)
            && (admitted && taken && claim.Some? ==>
                  Runs(t, w, c.event, claim.value) && t.workers[w].phase == Ready)
            && (!(admitted && taken && claim.Some?) ==> w !in t.workers)
  {
    DispatchedCases(TablesOf(s), c, owner, cfg.limits, cached, taken);
    if !admitted || !c.breakerAdmits || c.claimFails {
      run := [];
    } else {
      hide CanStep, After, AfterClaim, Claiming, Dispatched, ClaimedFor, GivenBack, Released, IsRun, End;
      ClaimRuns(cfg, s, w, owner, c.event, c.at, c.appNow, cached);
      var claim := TryClaim(w, owner, c.event, c.at, c.appNow, cached);
      ClaimStep(cfg, s, claim);
      OneStep(cfg, s, claim);
      run := [claim];
      var t := After(cfg, s, claim);
      var attempt := Claiming(TablesOf(s), c.event, owner, cfg.limits, c.at, c.appNow, cached, c.locked).1;
      if attempt.claim.Some? && !taken {
        var token := attempt.claim.value;
        var refusal := RefusalIsARun(cfg, t, w, c.event, token, c.givenBackAt, c.appNow, c.giveBackFails);
        Concatenate(cfg, s, [claim], refusal);
        run := [claim] + refusal;
      }
    }
  }
}
