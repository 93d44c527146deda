/**
 * The partner's deliveries joined with their reports: the recording transaction of the delivery protocol
 * also writes the report that the completion channel carries to the source.
 */
module ReportedDelivery {
  import opened Domain
  import opened InboxTables
  import Obligations
  import D = DeliveryProtocol
  import DeliveryInvariant
  import DeliverySteps
  import DeliveryTheorems
  import C = CompletionProtocol
  import CompletionTheorems
  import TableLemmas

  datatype Config = Config(delivery: D.Config, tracked: set<EventId>, quota: int) {
    predicate Valid() {
      delivery.Valid()
    }

    function Channel(): C.Config {
      C.Config(delivery.catalogue, tracked, quota)
    }
  }

  datatype World = World(delivery: D.World, channel: C.World)

  /** The channel never delivers by itself: its deliveries are the recorded ones. */
  datatype Step = Local(step: D.Step, completedAt: int) | Remote(move: C.Step)

  function Initial(clock: int): World {
    World(D.Initial(clock), C.INITIAL)
  }

  /** The event reaches the partner with this step. */
  predicate Enters(step: D.Step, id: EventId) {
    || (step.Poll? && exists r :: r in step.records && r.event.eventId == id)
    || (step.Start? && step.event.eventId == id)
  }

  predicate IsRecording(s: D.World, step: D.Step) {
    step.Commit? && step.w in s.workers && !Collides(s.effects, s.workers[step.w].event)
  }

  /** A tracked event is announced to the partner only with its obligation. */
  ghost predicate CanStep(cfg: Config, s: World, step: Step) {
    match step
    case Local(d, _) =>
      && D.CanStep(cfg.delivery, s.delivery, d)
      && forall id :: id in cfg.tracked && Enters(d, id) ==> id in s.channel.book.obligations
    case Remote(move) => !move.Deliver? && C.CanStep(cfg.Channel(), s.channel, move)
  }

  /** The report of a recording names the instance that made it. */
  function Reported(s: World, d: D.Step, completedAt: int): C.World {
    if IsRecording(s.delivery, d) then
      var worker := s.delivery.workers[d.w];
      C.AfterDeliver(s.channel, worker.event, worker.instance, completedAt)
    else s.channel
  }

  ghost function After(cfg: Config, s: World, step: Step): World
    requires CanStep(cfg, s, step)
  {
    match step
    case Local(d, completedAt) => World(D.After(cfg.delivery, s.delivery, d), Reported(s, d, completedAt))
    case Remote(move) => World(s.delivery, C.After(cfg.Channel(), s.channel, move))
  }

  ghost predicate IsRun(cfg: Config, s: World, run: seq<Step>)
    decreases |run|
  {
    run == [] || (CanStep(cfg, s, run[0]) && IsRun(cfg, After(cfg, s, run[0]), run[1..]))
  }

  ghost function End(cfg: Config, s: World, run: seq<Step>): World
    requires IsRun(cfg, s, run)
    decreases |run|
  {
    if run == [] then s else End(cfg, After(cfg, s, run[0]), run[1..])
  }

  // ---- what enters, stays and is recorded

  ghost predicate IsPresent(s: D.World, id: EventId) {
    id in s.inbox || exists w :: w in s.workers && s.workers[w].event.eventId == id
  }

  /** Rows and calls are of events that were there before or enter with the step. */
  lemma PollEnters(cfg: D.Config, s: D.World, step: D.Step, id: EventId)
    requires D.CanStep(cfg, s, step) && step.Poll? && IsPresent(D.After(cfg, s, step), id)
    ensures IsPresent(s, id) || Enters(step, id)
  {
    hide D.IsPoll, IsFresh;
  }

  lemma GrantEnters(
    limits: Limits, s: D.World, w: nat, e: Event, c: Claim, permits: Permits, at: ClaimClock, id: EventId)
    requires e.eventId in s.inbox && IsPresent(D.Granted(limits, s, w, e, c, permits, at), id)
    ensures IsPresent(s, id)
  {
    hide ClaimedRow;
  }

  lemma ClaimEnters(cfg: D.Config, s: D.World, step: D.Step, id: EventId)
    requires D.CanStep(cfg, s, step) && step.TryClaim? && IsPresent(D.After(cfg, s, step), id)
    ensures IsPresent(s, id)
  {
    hide D.CanStep, D.After, D.EnsuredPermits, D.Granted, D.RowLocked, ClaimEnds, ClaimToken, FirstFree;
    D.ClaimStep(cfg, s, step);
    var permits := D.EnsuredPermits(cfg, s, step.event.sellerId, step.cached);
    if ClaimEnds(s.inbox, permits, s.admissions, s.orders, step.event, cfg.limits, step.at, step.appNow,
      D.RowLocked(s.workers, step.event.eventId)) == Claimed {
      DeliverySteps.GrantStep(cfg, s, step, permits);
      var c := ClaimToken(s.inbox, permits, step.event, step.instance, cfg.limits, step.at);
      GrantEnters(cfg.limits, s, step.w, step.event, c, permits, step.at, id);
    }
  }

  /** Every other step but a start keeps rows and calls as they are, or drops them. */
  ghost predicate StaysWithin(s: D.World, t: D.World) {
    && (forall id :: id in t.inbox ==> id in s.inbox)
    && forall w :: w in t.workers ==> w in s.workers && t.workers[w].event == s.workers[w].event
  }

  lemma WritesKeepKeys(inbox: Inbox)
    ensures forall c, doneAt :: Completed(inbox, c, doneAt).Keys == inbox.Keys
    ensures forall c, now, nextAt :: GivenBack(inbox, c, now, nextAt).Keys == inbox.Keys
    ensures forall c, now, leaseMs :: RenewedInbox(inbox, c, now, leaseMs).Keys == inbox.Keys
  {
  }

  predicate WritesRow(step: D.Step) {
    step.FinishDuplicate? || step.ReadLedger? || step.Commit? || step.GiveBack? || step.Renew? || step.PurgeDone?
  }

  lemma LeaseWritesStay(cfg: D.Config, s: D.World, step: D.Step)
    requires D.CanStep(cfg, s, step) && (step.FinishDuplicate? || step.GiveBack? || step.Renew?)
    ensures StaysWithin(s, D.After(cfg, s, step)) && D.After(cfg, s, step).effects == s.effects
  {
    WritesKeepKeys(s.inbox);
    hide Completed, GivenBack, RenewedInbox, Released, RenewedPermits, Holds, D.RowLocked;
    var t := D.After(cfg, s, step);
    assert forall id :: id in t.inbox ==> id in t.inbox.Keys && id in s.inbox.Keys;
  }

  lemma ReadingStays(cfg: D.Config, s: D.World, step: D.Step)
    requires D.CanStep(cfg, s, step) && step.ReadLedger?
    ensures StaysWithin(s, D.After(cfg, s, step)) && D.After(cfg, s, step).effects == s.effects
  {
    WritesKeepKeys(s.inbox);
    hide Completed, Released, LastSequence;
    var t := D.After(cfg, s, step);
    assert forall id :: id in t.inbox ==> id in t.inbox.Keys && id in s.inbox.Keys;
  }

  lemma CommitStays(s: D.World, w: nat, doneAt: int)
    requires w in s.workers
    ensures StaysWithin(s, D.AfterCommit(s, w, doneAt))
    ensures var e := s.workers[w].event;
            D.AfterCommit(s, w, doneAt).effects
              == if Collides(s.effects, e) then s.effects else s.effects[e.eventId := e]
  {
    WritesKeepKeys(s.inbox);
    hide Completed, Released, Collides;
    if !Collides(s.effects, s.workers[w].event) {
      var inbox := D.CompletedBy(s.inbox, s.workers[w].claim, doneAt);
      assert forall id :: id in inbox ==> id in inbox.Keys && id in s.inbox.Keys;
    }
  }

  lemma RecordingStays(cfg: D.Config, s: D.World, step: D.Step)
    requires D.CanStep(cfg, s, step) && step.Commit?
    ensures StaysWithin(s, D.After(cfg, s, step))
    ensures D.After(cfg, s, step).effects
         == if IsRecording(s, step) then s.effects[s.workers[step.w].event.eventId := s.workers[step.w].event]
            else s.effects
  {
    hide D.CanStep, D.After, D.AfterCommit, StaysWithin, Collides;
    D.CommitStep(cfg, s, step);
    CommitStays(s, step.w, step.doneAt);
  }

  lemma PurgeStays(cfg: D.Config, s: D.World, step: D.Step)
    requires D.CanStep(cfg, s, step) && step.PurgeDone?
    ensures StaysWithin(s, D.After(cfg, s, step))
  {
    hide MayPurge;
    assert forall id :: id in s.inbox - step.ids ==> id in s.inbox;
  }

  lemma WritesStay(cfg: D.Config, s: D.World, step: D.Step)
    requires D.CanStep(cfg, s, step) && WritesRow(step)
    ensures StaysWithin(s, D.After(cfg, s, step))
  {
    hide D.CanStep, D.After, StaysWithin;
    if step.FinishDuplicate? || step.GiveBack? || step.Renew? {
      LeaseWritesStay(cfg, s, step);
    } else if step.PurgeDone? {
      PurgeStays(cfg, s, step);
    } else if step.ReadLedger? {
      ReadingStays(cfg, s, step);
    } else {
      RecordingStays(cfg, s, step);
    }
  }

  lemma OthersKeepEffects(cfg: D.Config, s: D.World, step: D.Step)
    requires D.CanStep(cfg, s, step) && (step.Poll? || step.TryClaim? || step.PurgeDone?)
    ensures D.After(cfg, s, step).effects == s.effects
  {
    if step.TryClaim? {
      hide D.After, ClaimEnds, ClaimToken, D.EnsuredPermits;
      D.ClaimStep(cfg, s, step);
      ClaimedRowExists(s.inbox, D.EnsuredPermits(cfg, s, step.event.sellerId, step.cached), s.admissions, s.orders,
        step.event, cfg.limits, step.at, step.appNow, D.RowLocked(s.workers, step.event.eventId));
    } else {
      hide D.CanStep, StoreAll;
    }
  }

  /** Only a recording changes the ledger, by exactly its event. */
  lemma StepEffects(cfg: D.Config, s: D.World, step: D.Step)
    requires D.CanStep(cfg, s, step)
    ensures D.After(cfg, s, step).effects
         == if IsRecording(s, step) then s.effects[s.workers[step.w].event.eventId := s.workers[step.w].event]
            else s.effects
  {
    hide D.CanStep, D.After, Collides;
    if step.Commit? {
      RecordingStays(cfg, s, step);
    } else if step.Poll? || step.TryClaim? || step.PurgeDone? {
      OthersKeepEffects(cfg, s, step);
    } else if step.FinishDuplicate? || step.GiveBack? || step.Renew? {
      LeaseWritesStay(cfg, s, step);
    } else if step.ReadLedger? {
      ReadingStays(cfg, s, step);
    } else {
      DeliveryTheorems.OtherStepsKeepRows(cfg, s, step);
    }
  }

  lemma MovesStay(cfg: D.Config, s: D.World, step: D.Step)
    requires D.CanStep(cfg, s, step) && !WritesRow(step) && !step.Poll? && !step.TryClaim? && !step.Start?
    ensures StaysWithin(s, D.After(cfg, s, step))
  {
    DeliveryTheorems.OtherStepsKeepRows(cfg, s, step);
    hide D.RowLocked, D.IsPoll, Without, Holds, D.HasResponse, LastSequence;
  }

  lemma StepEnters(cfg: D.Config, s: D.World, step: D.Step, id: EventId)
    requires D.CanStep(cfg, s, step) && IsPresent(D.After(cfg, s, step), id)
    ensures IsPresent(s, id) || Enters(step, id)
  {
    if step.Poll? {
      PollEnters(cfg, s, step, id);
    } else if step.TryClaim? {
      ClaimEnters(cfg, s, step, id);
    } else if WritesRow(step) {
      hide D.CanStep, D.After;
      WritesStay(cfg, s, step);
    } else if !step.Start? {
      hide D.CanStep, D.After;
      MovesStay(cfg, s, step);
    }
  }

  // ---- both halves keep their invariants, and one ledger between them

  ghost predicate Joined(cfg: Config, s: World) {
    && DeliveryInvariant.Inv(cfg.delivery, s.delivery)
    && CompletionTheorems.Inv(cfg.Channel(), s.channel)
    && s.channel.effects == s.delivery.effects
    && forall id :: id in cfg.tracked && IsPresent(s.delivery, id) ==> id in s.channel.book.obligations
  }

  lemma WorkersArePresent(s: D.World)
    ensures forall w :: w in s.workers ==> IsPresent(s, s.workers[w].event.eventId)
  {
  }

  lemma WorkersAreKnown(cfg: D.Config, s: D.World)
    requires DeliveryInvariant.Inv(cfg, s)
    ensures forall w :: w in s.workers ==> Known(cfg.catalogue, s.workers[w].event)
  {
    assert DeliveryInvariant.WorkersOk(cfg.catalogue, cfg.inboxMode, s.issued, s.effects, s.workers);
  }

  /** A recorded event is one the channel may deliver. */
  lemma RecordingDelivers(cfg: Config, s: World, d: D.Step, completedAt: int)
    requires Joined(cfg, s) && D.CanStep(cfg.delivery, s.delivery, d) && IsRecording(s.delivery, d)
    ensures var worker := s.delivery.workers[d.w];
            var move := C.Deliver(worker.event, worker.instance, completedAt);
            C.CanStep(cfg.Channel(), s.channel, move)
            && C.After(cfg.Channel(), s.channel, move) == Reported(s, d, completedAt)
  {
    hide DeliveryInvariant.Inv, CompletionTheorems.Inv, IsPresent, D.CanStep, C.AfterDeliver;
    var e := s.delivery.workers[d.w].event;
    WorkersArePresent(s.delivery);
    WorkersAreKnown(cfg.delivery, s.delivery);
    assert e.eventId !in s.channel.effects;
  }

  lemma {:induction false} BatchKeepsObligations(book: Obligations.Book, records: seq<C.Completion>, now: int)
    ensures C.ResolveAll(book, records, now).obligations.Keys == book.obligations.Keys
  {
    if records != [] {
      BatchKeepsObligations(book, records[..|records| - 1], now);
    }
  }

  lemma RemoteKeepsObligations(cfg: C.Config, s: C.World, move: C.Step)
    requires C.CanStep(cfg, s, move) && !move.Deliver?
    ensures s.book.obligations.Keys <= C.After(cfg, s, move).book.obligations.Keys
    ensures C.After(cfg, s, move).effects == s.effects
  {
    hide C.IsBatch, C.ResolveAll, C.ClosedBy, C.MayRelay;
    if move.Receive? {
      BatchKeepsObligations(s.book, move.records, move.now);
    }
  }

  lemma LocalKeepsJoined(cfg: Config, s: World, d: D.Step, completedAt: int)
    requires Joined(cfg, s) && CanStep(cfg, s, Local(d, completedAt))
    ensures Joined(cfg, After(cfg, s, Local(d, completedAt)))
  {
    hide DeliveryInvariant.Inv, CompletionTheorems.Inv, D.CanStep, D.After, C.CanStep, C.After, IsPresent, Enters;
    DeliverySteps.StepKeepsInv(cfg.delivery, s.delivery, d);
    StepEffects(cfg.delivery, s.delivery, d);
    if IsRecording(s.delivery, d) {
      RecordingDelivers(cfg, s, d, completedAt);
      var worker := s.delivery.workers[d.w];
      CompletionTheorems.StepKeepsInv(cfg.Channel(), s.channel, C.Deliver(worker.event, worker.instance, completedAt));
    }
    forall id | IsPresent(D.After(cfg.delivery, s.delivery, d), id)
      ensures IsPresent(s.delivery, id) || Enters(d, id)
    {
      StepEnters(cfg.delivery, s.delivery, d, id);
    }
  }

  lemma RemoteKeepsJoined(cfg: Config, s: World, move: C.Step)
    requires Joined(cfg, s) && CanStep(cfg, s, Remote(move))
    ensures Joined(cfg, After(cfg, s, Remote(move)))
  {
    hide DeliveryInvariant.Inv, CompletionTheorems.Inv, C.CanStep, C.After, IsPresent;
    CompletionTheorems.StepKeepsInv(cfg.Channel(), s.channel, move);
    RemoteKeepsObligations(cfg.Channel(), s.channel, move);
    var t := C.After(cfg.Channel(), s.channel, move);
    assert forall id :: id in s.channel.book.obligations ==> id in t.book.obligations.Keys;
  }

  lemma InitialJoined(cfg: Config, clock: int)
    requires cfg.Valid()
    ensures Joined(cfg, Initial(clock))
  {
    DeliverySteps.InitialInv(cfg.delivery, clock);
    CompletionTheorems.InitialInv(cfg.Channel());
    hide DeliveryInvariant.Inv, CompletionTheorems.Inv;
  }

  // ---- projections

  ghost predicate LeadsTo(cfg: D.Config, clock: int, local: seq<D.Step>, t: D.World) {
    D.IsRun(cfg, D.Initial(clock), local) && D.End(cfg, D.Initial(clock), local) == t
  }

  ghost predicate CarriesTo(cfg: C.Config, remote: seq<C.Step>, t: C.World) {
    C.IsRun(cfg, C.INITIAL, remote) && C.End(cfg, C.INITIAL, remote) == t
  }

  /** The two runs of which a joint state is the end. */
  ghost predicate IsSplit(cfg: Config, clock: int, s: World, local: seq<D.Step>, remote: seq<C.Step>) {
    LeadsTo(cfg.delivery, clock, local, s.delivery) && CarriesTo(cfg.Channel(), remote, s.channel)
  }

  lemma LeadsFurther(cfg: D.Config, clock: int, local: seq<D.Step>, s: D.World, step: D.Step)
    requires LeadsTo(cfg, clock, local, s) && D.CanStep(cfg, s, step)
    ensures LeadsTo(cfg, clock, local + [step], D.After(cfg, s, step))
  {
    hide D.CanStep, D.After, D.IsRun, D.End;
    D.OneStep(cfg, s, step);
    D.Concatenate(cfg, D.Initial(clock), local, [step]);
  }

  lemma CarriesFurther(cfg: C.Config, remote: seq<C.Step>, s: C.World, moves: seq<C.Step>)
    requires CarriesTo(cfg, remote, s) && C.IsRun(cfg, s, moves)
    ensures CarriesTo(cfg, remote + moves, C.End(cfg, s, moves))
  {
    hide C.CanStep, C.After, C.IsRun, C.End;
    CompletionTheorems.RunsJoin(cfg, C.INITIAL, remote, moves);
  }

  /** The channel moves a joint step stands for. */
  function Moves(s: World, step: Step): seq<C.Step> {
    match step
    case Local(d, completedAt) =>
      if IsRecording(s.delivery, d) then
        [C.Deliver(s.delivery.workers[d.w].event, s.delivery.workers[d.w].instance, completedAt)]
      else []
    case Remote(move) => [move]
  }

  lemma MovesAreARun(cfg: Config, s: World, step: Step)
    requires Joined(cfg, s) && CanStep(cfg, s, step)
    ensures C.IsRun(cfg.Channel(), s.channel, Moves(s, step))
    ensures C.End(cfg.Channel(), s.channel, Moves(s, step)) == After(cfg, s, step).channel
  {
    hide D.CanStep, D.After, C.CanStep, C.After;
    if step.Remote? {
      CompletionTheorems.OneStep(cfg.Channel(), s.channel, step.move);
    } else if IsRecording(s.delivery, step.step) {
      RecordingDelivers(cfg, s, step.step, step.completedAt);
      CompletionTheorems.OneStep(cfg.Channel(), s.channel, Moves(s, step)[0]);
    }
  }

  function Own(step: Step): seq<D.Step> {
    if step.Local? then [step.step] else []
  }

  lemma JoinedGoesOn(cfg: Config, s: World, step: Step)
    requires Joined(cfg, s) && CanStep(cfg, s, step)
    ensures Joined(cfg, After(cfg, s, step))
  {
    hide Joined, CanStep, After;
    match step
    case Local(d, completedAt) => LocalKeepsJoined(cfg, s, d, completedAt);
    case Remote(move) => RemoteKeepsJoined(cfg, s, move);
  }

  lemma OwnHalf(cfg: Config, s: World, step: Step)
    requires CanStep(cfg, s, step)
    ensures step.Local? ==> D.CanStep(cfg.delivery, s.delivery, step.step)
    ensures After(cfg, s, step).delivery
         == if step.Local? then D.After(cfg.delivery, s.delivery, step.step) else s.delivery
  {
    hide D.CanStep, D.After, C.CanStep, C.After, Reported, Enters;
  }

  lemma SplitGoesOn(cfg: Config, clock: int, s: World, local: seq<D.Step>, remote: seq<C.Step>, step: Step)
    requires Joined(cfg, s) && CanStep(cfg, s, step) && IsSplit(cfg, clock, s, local, remote)
    ensures Joined(cfg, After(cfg, s, step))
    ensures IsSplit(cfg, clock, After(cfg, s, step), local + Own(step), remote + Moves(s, step))
  {
    hide D.CanStep, D.After, C.CanStep, C.After, C.IsRun, C.End, Moves, Joined, LeadsTo, CarriesTo, CanStep, After;
    JoinedGoesOn(cfg, s, step);
    MovesAreARun(cfg, s, step);
    CarriesFurther(cfg.Channel(), remote, s.channel, Moves(s, step));
    OwnHalf(cfg, s, step);
    if step.Local? {
      LeadsFurther(cfg.delivery, clock, local, s.delivery, step.step);
    } else {
      assert local + [] == local;
    }
  }

  lemma {:induction false} SplitFrom(
    cfg: Config, clock: int, s: World, local: seq<D.Step>, remote: seq<C.Step>, run: seq<Step>)
    returns (local': seq<D.Step>, remote': seq<C.Step>)
    requires Joined(cfg, s) && IsSplit(cfg, clock, s, local, remote) && IsRun(cfg, s, run)
    ensures Joined(cfg, End(cfg, s, run)) && IsSplit(cfg, clock, End(cfg, s, run), local', remote')
    decreases |run|
  {
    hide Joined, IsSplit, CanStep, After;
    if run == [] {
      local', remote' := local, remote;
    } else {
      SplitGoesOn(cfg, clock, s, local, remote, run[0]);
      var step := run[0];
      local', remote' :=
        SplitFrom(cfg, clock, After(cfg, s, step), local + Own(step), remote + Moves(s, step), run[1..]);
    }
  }

  lemma EmptySplit(cfg: Config, clock: int)
    ensures IsSplit(cfg, clock, Initial(clock), [], [])
  {
  }

  /**
   * Whatever happens on both sides, the partner's half is a run of the delivery protocol and the channel's
   * half is a run of the completion protocol, and both agree on what was delivered.
   */
  lemma BothProtocolsRun(cfg: Config, clock: int, run: seq<Step>) returns (local: seq<D.Step>, remote: seq<C.Step>)
    requires cfg.Valid() && IsRun(cfg, Initial(clock), run)
    ensures var s := End(cfg, Initial(clock), run);
            IsSplit(cfg, clock, s, local, remote) && s.delivery.effects == s.channel.effects
  {
    InitialJoined(cfg, clock);
    EmptySplit(cfg, clock);
    hide IsRun, End, IsSplit, DeliveryInvariant.Inv, CompletionTheorems.Inv, IsPresent;
    local, remote := SplitFrom(cfg, clock, Initial(clock), [], [], run);
  }

  ghost predicate OnlyAcceptedEnter(cfg: Config, book: Obligations.Book, local: seq<D.Step>) {
    forall i, id :: 0 <= i < |local| && id in cfg.tracked && Enters(local[i], id) ==> id in book.obligations
  }

  /** Every run of the delivery protocol is the partner's half of a joint run, once its events are accepted. */
  lemma {:induction false} EveryDeliveryRunIsReported(
    cfg: Config, s: World, local: seq<D.Step>) returns (run: seq<Step>)
    requires D.IsRun(cfg.delivery, s.delivery, local) && OnlyAcceptedEnter(cfg, s.channel.book, local)
    ensures IsRun(cfg, s, run) && End(cfg, s, run).delivery == D.End(cfg.delivery, s.delivery, local)
    decreases |local|
  {
    hide D.CanStep, D.After, C.CanStep, C.After, Enters;
    if local == [] {
      run := [];
    } else {
      var step := Local(local[0], 0);
      assert CanStep(cfg, s, step);
      OwnHalf(cfg, s, step);
      var rest := EveryDeliveryRunIsReported(cfg, After(cfg, s, step), local[1..]);
      run := [step] + rest;
      assert run[1..] == rest;
    }
  }

  /** A delivered event has been applied by the seller. */
  lemma DeliveredIsApplied(cfg: D.Config, s: D.World, id: EventId)
    requires DeliveryInvariant.Inv(cfg, s) && id in s.effects
    ensures s.effects[id] in s.seller.log
    ensures forall i, j :: 0 <= i < j < |s.seller.log| ==> s.seller.log[i].eventId != s.seller.log[j].eventId
  {
    hide DeliveryInvariant.InboxOk, DeliveryInvariant.TokensOk, DeliveryInvariant.WorkersOk,
      DeliveryInvariant.LocksOk, DeliveryInvariant.OrderOk, DeliveryInvariant.CallsOk, DeliveryInvariant.OffsetsOk,
      DeliveryInvariant.CapacityOk, DeliveryInvariant.BudgetOk, DeliveryInvariant.ListsInOrder;
    var e := s.effects[id];
    assert Known(cfg.catalogue, e);
    TableLemmas.InLedger(cfg.catalogue, s.effects, s.orders, e);
    TableLemmas.InLedger(cfg.catalogue, s.seller.effects, s.seller.orders, e);
  }

  /** A closed obligation is for a delivered event. */
  lemma ClosedIsDelivered(cfg: C.Config, s: C.World, id: EventId)
    requires CompletionTheorems.Inv(cfg, s) && id in s.book.obligations && s.book.obligations[id].resolvedAt.Some?
    ensures id in s.effects && s.effects[id] == s.book.obligations[id].event
  {
    hide CompletionTheorems.ReportsOk, CompletionTheorems.PassesOk, CompletionTheorems.TopicOk,
      CompletionTheorems.OffsetsOk, CompletionTheorems.ClosingsOk;
  }

  /**
   * So an obligation that the source has closed stands for an effect at the seller: the operation it was
   * opened for, in the log of the seller once.
   */
  lemma ClosedMeansApplied(cfg: Config, clock: int, run: seq<Step>, id: EventId)
    requires cfg.Valid() && IsRun(cfg, Initial(clock), run)
    requires var book := End(cfg, Initial(clock), run).channel.book;
             id in book.obligations && book.obligations[id].resolvedAt.Some?
    ensures var s := End(cfg, Initial(clock), run);
            var e, log := s.channel.book.obligations[id].event, s.delivery.seller.log;
            && id in s.delivery.effects && s.delivery.effects[id] == e && e in log
            && forall i, j :: 0 <= i < j < |log| ==> log[i].eventId != log[j].eventId
  {
    InitialJoined(cfg, clock);
    EmptySplit(cfg, clock);
    hide IsRun, End, IsSplit, DeliveryInvariant.Inv, CompletionTheorems.Inv, IsPresent, Initial;
    var _, _ := SplitFrom(cfg, clock, Initial(clock), [], [], run);
    var s := End(cfg, Initial(clock), run);
    ClosedIsDelivered(cfg.Channel(), s.channel, id);
    DeliveredIsApplied(cfg.delivery, s.delivery, id);
  }
}
