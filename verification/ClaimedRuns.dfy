/**
 * What one instance does with a claimed row - the checks, the call, the recording and, when it fails,
 * giving the row back - as runs of the delivery protocol, on all the tables.
 */
module ClaimedRuns {
  import opened Domain
  import opened InboxTables
  import opened PartnerDatabase
  import opened SellerApi
  import opened DeliveryProtocol
  import opened Processor

  /**
   * What the dispatcher makes of an outcome: a failure gives the row back, unless that fails as well, and a
   * stale owner touches nothing.
   */
  function Ended(t: Tables, outcome: Outcome, claim: Claim, now: int, nextAt: int, keeps: bool): Tables {
    if IsDone(outcome) || outcome == Stale || keeps then t
    else t.(inbox := GivenBack(t.inbox, claim, now, nextAt), permits := Released(t.permits, claim))
  }

  function RunTables(
    before: Tables, between: Tables, e: Event, c: Claim, accepted: bool, at: Times, now: int, nextAt: int,
    keeps: bool)
    : Tables
  {
    var (t, outcome) := Processing(before, between, e, Some(c), accepted, at);
    Ended(t, outcome, c, now, nextAt, keeps)
  }

  /** A worker at the event with the token, and nobody else writing its row. */
  ghost predicate Runs(s: World, w: nat, e: Event, c: Claim) {
    && w in s.workers && s.workers[w].event == e && s.workers[w].claim == Some(c)
    && !RowLocked(s.workers - {w}, e.eventId)
  }

  // ---- single steps

  lemma MayWrite(s: World, w: nat, e: Event, c: Claim)
    requires Runs(s, w, e, c) && !s.workers[w].Locks()
    ensures MayWriteRow(s, w)
  {
    forall v | v in s.workers
      ensures !(s.workers[v].Locks() && s.workers[v].event.eventId == e.eventId)
    {
      assert v != w ==> v in s.workers - {w} && (s.workers - {w})[v] == s.workers[v];
    }
  }

  lemma StaysRunning(s: World, t: World, w: nat, e: Event, c: Claim)
    requires Runs(s, w, e, c) && w in t.workers && t.workers - {w} == s.workers - {w}
    requires t.workers[w].event == e && t.workers[w].claim == Some(c)
    ensures Runs(t, w, e, c)
  {
  }

  /** The last step of a failed run; a give back that fails itself leaves the row to its lease. */
  function LastStep(w: nat, now: int, nextAt: int, keeps: bool): Step {
    if keeps then Abandon(w) else GiveBack(w, now, nextAt)
  }

  lemma EndingStep(cfg: Config, s: World, w: nat, now: int, nextAt: int, keeps: bool)
    requires InPhase(s, w, Failed) && MayWriteRow(s, w)
    ensures CanStep(cfg, s, LastStep(w, now, nextAt, keeps))
    ensures After(cfg, s, LastStep(w, now, nextAt, keeps))
         == if keeps then Gone(s, w) else AfterGiveBack(s, w, now, nextAt)
  {
    hide AfterGiveBack, RowLocked;
  }

  lemma GivingBack(cfg: Config, s: World, w: nat, e: Event, c: Claim, now: int, nextAt: int, keeps: bool)
    requires Runs(s, w, e, c) && s.workers[w].phase == Failed
    ensures IsRun(cfg, s, [LastStep(w, now, nextAt, keeps)])
    ensures var t := End(cfg, s, [LastStep(w, now, nextAt, keeps)]);
            && w !in t.workers
            && TablesOf(t) == if keeps then TablesOf(s) else
                 TablesOf(s).(inbox := GivenBack(s.inbox, c, now, nextAt), permits := Released(s.permits, c))
  {
    var step := LastStep(w, now, nextAt, keeps);
    MayWrite(s, w, e, c);
    EndingStep(cfg, s, w, now, nextAt, keeps);
    hide CanStep, After, GivenBack, Released;
    OneStep(cfg, s, step);
  }

  lemma FirstCheck(cfg: Config, s: World, w: nat)
    requires w in s.workers && s.workers[w].phase == Ready
    ensures CanStep(cfg, s, CheckDelivered(w))
    ensures After(cfg, s, CheckDelivered(w)) ==
      Moved(s, w, if s.workers[w].event.eventId in s.effects then Duplicate else Undelivered)
  {
    hide Moved;
  }

  lemma SecondCheck(cfg: Config, s: World, w: nat)
    requires w in s.workers && s.workers[w].phase == Undelivered
    ensures CanStep(cfg, s, CheckPredecessor(w))
    ensures var e := s.workers[w].event;
            After(cfg, s, CheckPredecessor(w)) ==
              Moved(s, w, if LastSequence(s.orders, e.Key()) + 1 != e.sequence then Failed else Checked)
  {
    hide Moved;
  }

  lemma MovedTwice(s: World, w: nat, first: Phase, second: Phase)
    requires w in s.workers
    ensures Moved(Moved(s, w, first), w, second) == Moved(s, w, second)
  {
    assert s.workers[w := s.workers[w].(phase := first)][w := s.workers[w].(phase := second)]
        == s.workers[w := s.workers[w].(phase := second)];
  }

  lemma ChecksMove(cfg: Config, s: World, w: nat, e: Event, c: Claim)
    requires Runs(s, w, e, c) && s.workers[w].phase == Ready && e.eventId !in s.effects
    ensures var run := [CheckDelivered(w)] + [CheckPredecessor(w)];
            && IsRun(cfg, s, run)
            && End(cfg, s, run) == Moved(s, w, if Calls(TablesOf(s), e) then Checked else Failed)
  {
    var mid := Moved(s, w, Undelivered);
    FirstCheck(cfg, s, w);
    SecondCheck(cfg, mid, w);
    MovedTwice(s, w, Undelivered, Checked);
    MovedTwice(s, w, Undelivered, Failed);
    hide CanStep, After, IsRun, End, RowLocked, LastSequence;
    OneStep(cfg, mid, CheckPredecessor(w));
    Prepend(cfg, s, CheckDelivered(w), [CheckPredecessor(w)]);
  }

  // ---- before the call

  lemma FoundIsARun(cfg: Config, s: World, w: nat, e: Event, c: Claim, now: int, doneAt: int)
    requires Runs(s, w, e, c) && s.workers[w].phase == Ready && e.eventId in s.effects
    ensures var run := [CheckDelivered(w)] + [FinishDuplicate(w, now, doneAt)];
            && IsRun(cfg, s, run) && w !in End(cfg, s, run).workers
            && TablesOf(End(cfg, s, run)) == TablesOf(AfterDuplicate(s, w, now, doneAt))
  {
    hide CanStep, After, IsRun, End, MayWriteRow, StillHolds, CompletedBy, ReleasedBy;
    var found, finish := Moved(s, w, Duplicate), FinishDuplicate(w, now, doneAt);
    FirstCheck(cfg, s, w);
    StaysRunning(s, found, w, e, c);
    MayWrite(found, w, e, c);
    DuplicateStep(cfg, found, finish);
    OneStep(cfg, found, finish);
    Prepend(cfg, s, CheckDelivered(w), [finish]);
  }

  /** Without a call the run ends the worker, and its tables are those of the dispatcher's method. */
  lemma NoCallIsARun(
    cfg: Config, s: World, w: nat, e: Event, c: Claim, accepted: bool, between: Tables, at: Times, now: int,
    nextAt: int, keeps: bool)
    returns (run: seq<Step>)
    requires Runs(s, w, e, c) && s.workers[w].phase == Ready && !Calls(TablesOf(s), e)
    ensures IsRun(cfg, s, run) && w !in End(cfg, s, run).workers
    ensures TablesOf(End(cfg, s, run)) == RunTables(TablesOf(s), between, e, c, accepted, at, now, nextAt, keeps)
  {
    hide IsRun, End, Completed, GivenBack, Released, LastSequence;
    if e.eventId in s.effects {
      FoundIsARun(cfg, s, w, e, c, at.check, at.doneAt);
      run := [CheckDelivered(w)] + [FinishDuplicate(w, at.check, at.doneAt)];
    } else {
      ChecksMove(cfg, s, w, e, c);
      var failed := Moved(s, w, Failed);
      StaysRunning(s, failed, w, e, c);
      GivingBack(cfg, failed, w, e, c, now, nextAt, keeps);
      var checks := [CheckDelivered(w)] + [CheckPredecessor(w)];
      Concatenate(cfg, s, checks, [LastStep(w, now, nextAt, keeps)]);
      run := checks + [LastStep(w, now, nextAt, keeps)];
    }
  }

  /** With a call, nothing is written before the request is on its way. */
  lemma CallStartsARun(cfg: Config, s: World, w: nat, e: Event, c: Claim, r: nat) returns (run: seq<Step>)
    requires Runs(s, w, e, c) && s.workers[w].phase == Ready && Calls(TablesOf(s), e) && r !in s.requests
    ensures IsRun(cfg, s, run)
    ensures var t := End(cfg, s, run);
            && TablesOf(t) == TablesOf(s) && t.clock == s.clock && Runs(t, w, e, c) && t.workers[w].phase == Calling(r)
            && r in t.requests && t.requests[r] == Request(e, Travelling)
  {
    hide CanStep, After, IsRun, End, LastSequence;
    ChecksMove(cfg, s, w, e, c);
    var checked := Moved(s, w, Checked);
    StaysRunning(s, checked, w, e, c);
    SendStep(cfg, checked, Send(w, r));
    StaysRunning(checked, AfterSend(checked, w, r), w, e, c);
    OneStep(cfg, checked, Send(w, r));
    var checks := [CheckDelivered(w)] + [CheckPredecessor(w)];
    Concatenate(cfg, s, checks, [Send(w, r)]);
    run := checks + [Send(w, r)];
  }

  // ---- after the call

  /** The call failed: the exception reaches the dispatcher, which gives the row back. */
  lemma FailedCallIsARun(
    cfg: Config, before: Tables, s: World, w: nat, e: Event, c: Claim, at: Times, now: int, nextAt: int,
    keeps: bool)
    returns (run: seq<Step>)
    requires Runs(s, w, e, c) && s.workers[w].phase.Calling? && Calls(before, e)
    ensures IsRun(cfg, s, run) && w !in End(cfg, s, run).workers
    ensures TablesOf(End(cfg, s, run)) == RunTables(before, TablesOf(s), e, c, false, at, now, nextAt, keeps)
  {
    hide CanStep, After, IsRun, End, GivenBack, Released;
    var failed := Moved(s, w, Failed);
    FailStep(cfg, s, Fail(w));
    StaysRunning(s, failed, w, e, c);
    GivingBack(cfg, failed, w, e, c, now, nextAt, keeps);
    Prepend(cfg, s, Fail(w), [LastStep(w, now, nextAt, keeps)]);
    run := [Fail(w)] + [LastStep(w, now, nextAt, keeps)];
  }

  lemma Locking(cfg: Config, s: World, w: nat, e: Event, c: Claim, now: int)
    requires Runs(s, w, e, c) && s.workers[w].phase == Succeeded
    ensures IsRun(cfg, s, [LockRow(w, now)])
    ensures var t := End(cfg, s, [LockRow(w, now)]);
            && TablesOf(t) == TablesOf(s)
            && if StillHolds(s.inbox, Some(c), now) then Runs(t, w, e, c) && t.workers[w].phase == Locked
               else w !in t.workers
  {
    hide CanStep, After, StillHolds, MayWriteRow;
    MayWrite(s, w, e, c);
    var t := AfterLock(s, w, now);
    LockStep(cfg, s, LockRow(w, now));
    OneStep(cfg, s, LockRow(w, now));
    if StillHolds(s.inbox, Some(c), now) {
      StaysRunning(s, t, w, e, c);
    }
  }

  lemma Reading(cfg: Config, s: World, w: nat, e: Event, c: Claim, doneAt: int)
    requires Runs(s, w, e, c) && s.workers[w].phase == Locked
    ensures IsRun(cfg, s, [ReadLedger(w, doneAt)])
    ensures var t, before := End(cfg, s, [ReadLedger(w, doneAt)]), TablesOf(s);
            && if e.eventId in s.effects then
                 && w !in t.workers
                 && TablesOf(t) == before.(inbox := CompletedBy(before.inbox, Some(c), doneAt),
                                           permits := ReleasedBy(before.permits, Some(c)))
               else
                 && TablesOf(t) == before && Runs(t, w, e, c)
                 && t.workers[w].phase == if Calls(before, e) then Writing else Failed
  {
    var t := AfterRead(s, w, doneAt);
    hide CanStep, After, CompletedBy, ReleasedBy;
    ReadStep(cfg, s, ReadLedger(w, doneAt));
    OneStep(cfg, s, ReadLedger(w, doneAt));
    if e.eventId !in s.effects {
      StaysRunning(s, t, w, e, c);
    }
  }

  lemma Committing(cfg: Config, s: World, w: nat, e: Event, c: Claim, doneAt: int)
    requires Runs(s, w, e, c) && s.workers[w].phase == Writing
    ensures IsRun(cfg, s, [Commit(w, doneAt)])
    ensures var t, before := End(cfg, s, [Commit(w, doneAt)]), TablesOf(s);
            && if Collides(s.effects, e) then
                 TablesOf(t) == before && Runs(t, w, e, c) && t.workers[w].phase == Failed
               else
                 && w !in t.workers
                 && TablesOf(t) == before.(inbox := CompletedBy(before.inbox, Some(c), doneAt),
                                           permits := ReleasedBy(before.permits, Some(c)),
                                           effects := before.effects[e.eventId := e],
                                           orders := before.orders[e.Key() := e.Latest()])
  {
    var t := AfterCommit(s, w, doneAt);
    hide CanStep, After, CompletedBy, ReleasedBy, Collides;
    CommitStep(cfg, s, Commit(w, doneAt));
    OneStep(cfg, s, Commit(w, doneAt));
    if Collides(s.effects, e) {
      StaysRunning(s, t, w, e, c);
    }
  }

  /** Locking, reading and writing, without a step of anyone else in between. */
  lemma RecordingIsARun(
    cfg: Config, s: World, w: nat, e: Event, c: Claim, now: int, doneAt: int) returns (run: seq<Step>)
    requires Runs(s, w, e, c) && s.workers[w].phase == Succeeded
    ensures IsRun(cfg, s, run)
    ensures var t := End(cfg, s, run);
            var (tables, outcome) := Recording(TablesOf(s), e, Some(c), now, doneAt);
            && TablesOf(t) == tables
            && if IsDone(outcome) || outcome == Stale then w !in t.workers
               else Runs(t, w, e, c) && t.workers[w].phase == Failed
  {
    hide StillHolds, CompletedBy, ReleasedBy, Collides, LastSequence, IsRun, End, Runs;
    run := [LockRow(w, now)];
    Locking(cfg, s, w, e, c, now);
    var locked := End(cfg, s, run);
    if StillHolds(s.inbox, Some(c), now) {
      Reading(cfg, locked, w, e, c, doneAt);
      Concatenate(cfg, s, run, [ReadLedger(w, doneAt)]);
      run := run + [ReadLedger(w, doneAt)];
      if Calls(TablesOf(s), e) {
        var read := End(cfg, s, run);
        Committing(cfg, read, w, e, c, doneAt);
        Concatenate(cfg, s, run, [Commit(w, doneAt)]);
        run := run + [Commit(w, doneAt)];
      }
    }
  }

  /** The seller answered 200: the recording transaction and, unless it succeeds or is stale, giving back. */
  lemma AcceptedCallIsARun(
    cfg: Config, before: Tables, s: World, w: nat, e: Event, c: Claim, at: Times, now: int, nextAt: int,
    keeps: bool)
    returns (run: seq<Step>)
    requires Runs(s, w, e, c) && HasResponse(s, w) && s.requests[s.workers[w].phase.request].stage.status == OK
    requires Calls(before, e)
    ensures IsRun(cfg, s, run) && w !in End(cfg, s, run).workers
    ensures TablesOf(End(cfg, s, run)) == RunTables(before, TablesOf(s), e, c, true, at, now, nextAt, keeps)
  {
    var answered := Moved(s, w, Succeeded);
    hide CanStep, After, IsRun, End, Recording;
    ReceiveStep(cfg, s, Receive(w));
    StaysRunning(s, answered, w, e, c);
    var record := RecordingIsARun(cfg, answered, w, e, c, at.record, at.doneAt);
    var t := End(cfg, answered, record);
    if w in t.workers {
      GivingBack(cfg, t, w, e, c, now, nextAt, keeps);
      Concatenate(cfg, answered, record, [LastStep(w, now, nextAt, keeps)]);
      record := record + [LastStep(w, now, nextAt, keeps)];
    }
    hide GivenBack, Released;
    Prepend(cfg, s, Receive(w), record);
    run := [Receive(w)] + record;
  }
}
