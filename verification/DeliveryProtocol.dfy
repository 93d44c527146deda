/**
 * The inbox delivery protocol as one global state and its atomic steps: several instances over one
 * database, the Kafka topic they read, the HTTP requests in flight and the seller they call.
 *
 * A transaction is one step, except the recording transaction: it locks the inbox row, reads the
 * ledger and writes it in three steps, because only the row is locked and other transactions may
 * write the ledger in between.
 */
module DeliveryProtocol {
  import opened Domain
  import opened InboxTables
  import opened SellerApi

  datatype Config = Config(
    catalogue: map<EventId, Event>,
    topic: map<int, seq<Event>>,
    limits: Limits,
    pendingLimit: nat,
    retainedLimit: nat,
    inboxMode: bool)
  {
    /** Every record of the topic, including redelivered copies, is an event of the catalogue. */
    predicate Valid() {
      && WellNumbered(catalogue)
      && forall p, o :: p in topic && 0 <= o < |topic[p]| ==> Known(catalogue, topic[p][o])
    }
  }

  /** How far one call of the processor has come. */
  datatype Phase =
    | Ready                   // nothing checked yet
    | Undelivered             // not in the ledger at the first check
    | Duplicate               // in the ledger at the first check
    | Checked                 // its predecessor is delivered; the seller may be called
    | Calling(request: nat)
    | Succeeded               // the seller answered 200
    | Locked                  // recording: the token held and its row is locked
    | Writing                 // recording: the ledger was read, the insert is next
    | Failed                  // an exception is on its way to the dispatcher

  datatype Worker = Worker(instance: InstanceId, event: Event, claim: Option<Claim>, phase: Phase) {
    /** The worker's recording transaction is open and holds the lock of its inbox row. */
    predicate Locks() {
      (phase.Locked? || phase.Writing?) && claim.Some?
    }
  }

  datatype Stage = Travelling | Counted(count: nat, attempt: nat) | Answered(status: int, lost: bool)
  datatype Request = Request(event: Event, stage: Stage)

  /** A poll that is stored but whose offsets are not committed yet. */
  datatype Ack = Ack(instance: InstanceId, upto: map<int, nat>)

  datatype Cursor = Cursor(instance: InstanceId, partition: int)

  /** The last two fields are history: every token and every retry admission ever given, purged or not. */
  datatype World = World(
    clock: int,
    inbox: Inbox,
    permits: Permits,
    admissions: seq<Admission>,
    effects: Effects,
    orders: Orders,
    committed: map<int, nat>,
    positions: map<Cursor, nat>,
    acks: set<Ack>,
    workers: map<nat, Worker>,
    requests: map<nat, Request>,
    seller: Seller,
    issued: set<Claim>,
    history: seq<Admission>)

  function Initial(clock: int): World {
    World(clock, map[], map[], [], map[], map[], map[], map[], {}, map[], map[], NEW_SELLER, {}, [])
  }

  predicate RowLocked(workers: map<nat, Worker>, id: EventId) {
    exists w :: w in workers && workers[w].Locks() && workers[w].event.eventId == id
  }

  function Committed(s: World, partition: int): nat {
    if partition in s.committed then s.committed[partition] else 0
  }

  datatype Step =
    | Tick(now: int)
    | Assign(cursor: Cursor, position: nat)
    | Poll(instance: InstanceId, upto: map<int, nat>, records: seq<Record>, receivedAt: int)
    | Acknowledge(ack: Ack)
    | TryClaim(w: nat, instance: InstanceId, event: Event, at: ClaimClock, appNow: int, cached: bool)
    | Start(w: nat, instance: InstanceId, event: Event)
    | CheckDelivered(w: nat)
    | CheckPredecessor(w: nat)
    | FinishDuplicate(w: nat, now: int, doneAt: int)
    | Send(w: nat, request: nat)
    | Arrive(request: nat)
    | Decide(request: nat, policy: Policy)
    | Receive(w: nat)
    | Fail(w: nat)
    | LockRow(w: nat, now: int)
    | ReadLedger(w: nat, doneAt: int)
    | Commit(w: nat, doneAt: int)
    | GiveBack(w: nat, now: int, nextAt: int)
    | Abandon(w: nat)
    | Crash(instance: InstanceId)
    | Renew(claim: Claim, now: int, later: int)
    | PurgeDone(ids: set<EventId>, cutoff: int)
    | PurgeAdmissions(gone: set<nat>, now: int)

  // ---- intake

  predicate IsPolled(cfg: Config, positions: map<Cursor, nat>, instance: InstanceId, upto: map<int, nat>, r: Record) {
    && r.partition in upto && r.partition in cfg.topic && Cursor(instance, r.partition) in positions
    && positions[Cursor(instance, r.partition)] <= r.offset < upto[r.partition] <= |cfg.topic[r.partition]|
    && r.event == cfg.topic[r.partition][r.offset]
  }

  /** The poll returns exactly the records between each polled cursor and its new position. */
  predicate IsPoll(
    cfg: Config, positions: map<Cursor, nat>, instance: InstanceId, upto: map<int, nat>, records: seq<Record>)
  {
    && (forall p :: p in upto ==>
          p in cfg.topic && Cursor(instance, p) in positions
          && positions[Cursor(instance, p)] <= upto[p] <= |cfg.topic[p]|)
    && (forall i :: 0 <= i < |records| ==> IsPolled(cfg, positions, instance, upto, records[i]))
    && (forall p, o :: p in upto && positions[Cursor(instance, p)] <= o < upto[p] ==>
          Record(cfg.topic[p][o], p, o) in records)
  }

  function Advanced(positions: map<Cursor, nat>, instance: InstanceId, upto: map<int, nat>): map<Cursor, nat> {
    positions + map p | p in upto :: Cursor(instance, p) := upto[p]
  }

  function AfterPoll(
    cfg: Config, s: World, instance: InstanceId, upto: map<int, nat>, records: seq<Record>, receivedAt: int): World
  {
    match StoreAll(s.inbox, s.effects, records, cfg.pendingLimit, cfg.retainedLimit, receivedAt)
    case None => s     // the transaction rolls back and the records are read again
    case Some(inbox) =>
      s.(inbox := inbox, positions := Advanced(s.positions, instance, upto), acks := s.acks + {Ack(instance, upto)})
  }

  // ---- claiming

  /** A granted claim: its admission, its row, its permit and its worker. */
  function Granted(limits: Limits, s: World, w: nat, e: Event, c: Claim, permits: Permits, at: ClaimClock): World
    requires e.eventId in s.inbox
  {
    var admitted := if c.retry then [Admission(e.sellerId, e.eventId, at.admit)] else [];
    s.(inbox := s.inbox[e.eventId := ClaimedRow(s.inbox[e.eventId], c, at.inbox + limits.leaseMs)],
       permits := permits[Slot(c.sellerId, c.slot) := HeldPermit(c, at.permit + limits.leaseMs)],
       admissions := s.admissions + admitted,
       history := s.history + admitted,
       issued := s.issued + {c},
       workers := s.workers[w := Worker(c.owner, e, Some(c), Ready)],
       clock := at.permit)
  }

  /** The permits the claim sees; an instance that remembers having created them does not look again. */
  function EnsuredPermits(cfg: Config, s: World, sellerId: SellerId, cached: bool): Permits {
    if cached then s.permits else WithPermits(s.permits, sellerId, cfg.limits.sellerPermits)
  }

  function AfterClaim(
    cfg: Config, s: World, w: nat, instance: InstanceId, e: Event, at: ClaimClock, appNow: int, cached: bool): World
  {
    var permits := EnsuredPermits(cfg, s, e.sellerId, cached);
    if ClaimEnds(s.inbox, permits, s.admissions, s.orders, e, cfg.limits, at, appNow, RowLocked(s.workers, e.eventId))
      == Claimed then
      Granted(cfg.limits, s, w, e, ClaimToken(s.inbox, permits, e, instance, cfg.limits, at), permits, at)
    else s.(permits := permits, clock := at.permit)
  }

  // ---- processing

  function Moved(s: World, w: nat, phase: Phase): World
    requires w in s.workers
  {
    s.(workers := s.workers[w := s.workers[w].(phase := phase)])
  }

  function Gone(s: World, w: nat): World {
    s.(workers := s.workers - {w})
  }

  // A worker outside the inbox mode has no claim, and nothing to write under one.

  predicate StillHolds(inbox: Inbox, claim: Option<Claim>, now: int) {
    claim.Some? ==> Holds(inbox, claim.value, now)
  }

  function CompletedBy(inbox: Inbox, claim: Option<Claim>, doneAt: int): Inbox {
    if claim.Some? then Completed(inbox, claim.value, doneAt) else inbox
  }

  function GivenBackBy(inbox: Inbox, claim: Option<Claim>, now: int, nextAt: int): Inbox {
    if claim.Some? then GivenBack(inbox, claim.value, now, nextAt) else inbox
  }

  function ReleasedBy(permits: Permits, claim: Option<Claim>): Permits {
    if claim.Some? then Released(permits, claim.value) else permits
  }

  /** A lapsed token leaves the row to its next claim but still gives up its permit. */
  function AfterDuplicate(s: World, w: nat, now: int, doneAt: int): World
    requires w in s.workers
  {
    var claim := s.workers[w].claim;
    s.(workers := s.workers - {w},
       inbox := if StillHolds(s.inbox, claim, now) then CompletedBy(s.inbox, claim, doneAt) else s.inbox,
       permits := ReleasedBy(s.permits, claim),
       clock := Max(s.clock, now))
  }

  function AfterSend(s: World, w: nat, r: nat): World
    requires w in s.workers
  {
    Moved(s, w, Calling(r)).(requests := s.requests[r := Request(s.workers[w].event, Travelling)])
  }

  function AfterArrive(s: World, r: nat): World
    requires r in s.requests
  {
    var e := s.requests[r].event;
    s.(seller := Arrived(s.seller, e),
       requests := s.requests[r := Request(e, Counted(Count(s.seller, e.eventId), |s.seller.attempts|))])
  }

  function AfterDecide(s: World, r: nat, policy: Policy): World
    requires r in s.requests && s.requests[r].stage.Counted? && s.requests[r].stage.attempt < |s.seller.attempts|
  {
    var e, stage := s.requests[r].event, s.requests[r].stage;
    var answer := Answered(Status(s.seller, e, stage.count, policy), Dropped(s.seller, e, stage.count, policy));
    s.(seller := Decided(s.seller, e, stage.count, stage.attempt, policy),
       requests := s.requests[r := Request(e, answer)])
  }

  /** The response of the worker's request arrived: only status 200 counts as accepted. */
  predicate HasResponse(s: World, w: nat) {
    && w in s.workers && s.workers[w].phase.Calling? && s.workers[w].phase.request in s.requests
    && s.requests[s.workers[w].phase.request].stage.Answered? && !s.requests[s.workers[w].phase.request].stage.lost
  }

  function AfterReceive(s: World, w: nat): World
    requires HasResponse(s, w)
  {
    Moved(s, w, if s.requests[s.workers[w].phase.request].stage.status == OK then Succeeded else Failed)
  }

  /** A stale owner stops here: its transaction rolls back and it gives nothing back. */
  function AfterLock(s: World, w: nat, now: int): World
    requires w in s.workers
  {
    var stale := !StillHolds(s.inbox, s.workers[w].claim, now);
    s.(workers := if stale then s.workers - {w} else s.workers[w := s.workers[w].(phase := Locked)],
       clock := Max(s.clock, now))
  }

  /** A delivery that another worker recorded first only completes the claim. */
  function AfterRead(s: World, w: nat, doneAt: int): World
    requires w in s.workers
  {
    var e := s.workers[w].event;
    var delivered := e.eventId in s.effects;
    var next := if LastSequence(s.orders, e.Key()) + 1 != e.sequence then Failed else Writing;
    s.(workers := if delivered then s.workers - {w} else s.workers[w := s.workers[w].(phase := next)],
       inbox := if delivered then CompletedBy(s.inbox, s.workers[w].claim, doneAt) else s.inbox,
       permits := if delivered then ReleasedBy(s.permits, s.workers[w].claim) else s.permits)
  }

  /** The insert fails when a unique key of the ledger is taken; otherwise everything commits together. */
  function AfterCommit(s: World, w: nat, doneAt: int): World
    requires w in s.workers
  {
    var e := s.workers[w].event;
    if Collides(s.effects, e) then Moved(s, w, Failed)
    else
      s.(workers := s.workers - {w},
         effects := s.effects[e.eventId := e],
         orders := s.orders[e.Key() := e.Latest()],
         inbox := CompletedBy(s.inbox, s.workers[w].claim, doneAt),
         permits := ReleasedBy(s.permits, s.workers[w].claim))
  }

  /** A lapsed token cannot make the row wait again, but it still gives up its permit. */
  function AfterGiveBack(s: World, w: nat, now: int, nextAt: int): World
    requires w in s.workers
  {
    var claim := s.workers[w].claim;
    s.(workers := s.workers - {w}, inbox := GivenBackBy(s.inbox, claim, now, nextAt),
      permits := ReleasedBy(s.permits, claim), clock := Max(s.clock, now))
  }

  function AfterCrash(s: World, instance: InstanceId): World {
    s.(workers := map w | w in s.workers && s.workers[w].instance != instance :: s.workers[w],
       positions := map k | k in s.positions && k.instance != instance :: s.positions[k],
       acks := set a | a in s.acks && a.instance != instance)
  }

  // ---- the step relation

  predicate InPhase(s: World, w: nat, phase: Phase) {
    w in s.workers && s.workers[w].phase == phase
  }

  /** The worker's own row is not locked by another open transaction. */
  predicate MayWriteRow(s: World, w: nat) {
    w in s.workers && (s.workers[w].claim.Some? ==> !RowLocked(s.workers, s.workers[w].event.eventId))
  }

  predicate CanStep(cfg: Config, s: World, step: Step) {
    match step
    case Tick(now) => now >= s.clock
    case Assign(cursor, position) => cursor.partition in cfg.topic && position <= Committed(s, cursor.partition)
    case Poll(instance, upto, records, _) => cfg.inboxMode && IsPoll(cfg, s.positions, instance, upto, records)
    case Acknowledge(ack) => ack in s.acks
    case TryClaim(w, _, e, at, _, _) =>
      cfg.inboxMode && w !in s.workers && Known(cfg.catalogue, e) && at.Ordered() && at.row >= s.clock
    case Start(w, _, e) => !cfg.inboxMode && w !in s.workers && Known(cfg.catalogue, e)
    case CheckDelivered(w) => InPhase(s, w, Ready)
    case CheckPredecessor(w) => InPhase(s, w, Undelivered)
    case FinishDuplicate(w, _, _) => InPhase(s, w, Duplicate) && MayWriteRow(s, w)
    case Send(w, r) => InPhase(s, w, Checked) && r !in s.requests
    case Arrive(r) => r in s.requests && s.requests[r].stage.Travelling?
    case Decide(r, _) =>
      r in s.requests && s.requests[r].stage.Counted? && s.requests[r].stage.attempt < |s.seller.attempts|
    case Receive(w) => HasResponse(s, w)
    case Fail(w) => w in s.workers
    case LockRow(w, _) => InPhase(s, w, Succeeded) && MayWriteRow(s, w)
    case ReadLedger(w, _) => InPhase(s, w, Locked)
    case Commit(w, _) => InPhase(s, w, Writing)
    case GiveBack(w, _, _) => InPhase(s, w, Failed) && MayWriteRow(s, w)
    case Abandon(w) => w in s.workers
    case Crash(_) => true
    case Renew(c, now, later) => c in s.issued && Max(s.clock, now) <= later && !RowLocked(s.workers, c.eventId)
    case PurgeDone(ids, cutoff) => MayPurge(s.inbox, ids, cutoff)
    case PurgeAdmissions(gone, now) =>
      forall i :: i in gone && i < |s.admissions| ==>
        s.admissions[i].admittedAt < now - 10 * cfg.limits.retryWindowMs
  }

  function After(cfg: Config, s: World, step: Step): World
    requires CanStep(cfg, s, step)
  {
    match step
    case Tick(now) => s.(clock := now)
    case Assign(cursor, position) => s.(positions := s.positions[cursor := position])
    case Poll(instance, upto, records, receivedAt) => AfterPoll(cfg, s, instance, upto, records, receivedAt)
    case Acknowledge(ack) => s.(committed := s.committed + ack.upto, acks := s.acks - {ack})
    case TryClaim(w, instance, e, at, appNow, cached) => AfterClaim(cfg, s, w, instance, e, at, appNow, cached)
    case Start(w, instance, e) => s.(workers := s.workers[w := Worker(instance, e, None, Ready)])
    case CheckDelivered(w) => Moved(s, w, if s.workers[w].event.eventId in s.effects then Duplicate else Undelivered)
    case CheckPredecessor(w) =>
      Moved(s, w,
        if LastSequence(s.orders, s.workers[w].event.Key()) + 1 != s.workers[w].event.sequence then Failed else Checked)
    case FinishDuplicate(w, now, doneAt) => AfterDuplicate(s, w, now, doneAt)
    case Send(w, r) => AfterSend(s, w, r)
    case Arrive(r) => AfterArrive(s, r)
    case Decide(r, policy) => AfterDecide(s, r, policy)
    case Receive(w) => AfterReceive(s, w)
    case Fail(w) => Moved(s, w, Failed)
    case LockRow(w, now) => AfterLock(s, w, now)
    case ReadLedger(w, doneAt) => AfterRead(s, w, doneAt)
    case Commit(w, doneAt) => AfterCommit(s, w, doneAt)
    case GiveBack(w, now, nextAt) => AfterGiveBack(s, w, now, nextAt)
    case Abandon(w) => Gone(s, w)
    case Crash(instance) => AfterCrash(s, instance)
    case Renew(c, now, later) =>
      s.(inbox := RenewedInbox(s.inbox, c, now, cfg.limits.leaseMs),
         permits := RenewedPermits(s.inbox, s.permits, c, now, later, cfg.limits.leaseMs),
         clock := later)
    case PurgeDone(ids, _) => s.(inbox := s.inbox - ids)
    case PurgeAdmissions(gone, now) => s.(admissions := Without(s.admissions, gone), clock := Max(s.clock, now))
  }

  // ---- what a step needs and what it does

  lemma PollStep(cfg: Config, s: World, step: Step)
    requires step.Poll?
    ensures CanStep(cfg, s, step) <==>
          cfg.inboxMode && IsPoll(cfg, s.positions, step.instance, step.upto, step.records)
    ensures CanStep(cfg, s, step) ==>
          After(cfg, s, step) == AfterPoll(cfg, s, step.instance, step.upto, step.records, step.receivedAt)
  {
    hide AfterPoll, IsPoll;
  }

  lemma ClaimStep(cfg: Config, s: World, step: Step)
    requires step.TryClaim?
    ensures CanStep(cfg, s, step) <==>
          cfg.inboxMode && step.w !in s.workers && Known(cfg.catalogue, step.event) && step.at.Ordered()
          && step.at.row >= s.clock
    ensures CanStep(cfg, s, step) ==>
          After(cfg, s, step)
            == AfterClaim(cfg, s, step.w, step.instance, step.event, step.at, step.appNow, step.cached)
  {
    hide AfterClaim, Known;
  }

  lemma DuplicateStep(cfg: Config, s: World, step: Step)
    requires step.FinishDuplicate?
    ensures CanStep(cfg, s, step) <==> InPhase(s, step.w, Duplicate) && MayWriteRow(s, step.w)
    ensures CanStep(cfg, s, step) ==> After(cfg, s, step) == AfterDuplicate(s, step.w, step.now, step.doneAt)
  {
    hide AfterDuplicate, MayWriteRow;
  }

  lemma SendStep(cfg: Config, s: World, step: Step)
    requires step.Send?
    ensures CanStep(cfg, s, step) <==> InPhase(s, step.w, Checked) && step.request !in s.requests
    ensures CanStep(cfg, s, step) ==> After(cfg, s, step) == AfterSend(s, step.w, step.request)
  {
    hide AfterSend;
  }

  lemma ArriveStep(cfg: Config, s: World, step: Step)
    requires step.Arrive?
    ensures CanStep(cfg, s, step) <==> step.request in s.requests && s.requests[step.request].stage.Travelling?
    ensures CanStep(cfg, s, step) ==> After(cfg, s, step) == AfterArrive(s, step.request)
  {
    hide AfterArrive;
  }

  lemma DecideStep(cfg: Config, s: World, step: Step)
    requires step.Decide?
    ensures CanStep(cfg, s, step) <==>
          step.request in s.requests && s.requests[step.request].stage.Counted?
          && s.requests[step.request].stage.attempt < |s.seller.attempts|
    ensures CanStep(cfg, s, step) ==> After(cfg, s, step) == AfterDecide(s, step.request, step.policy)
  {
    hide AfterDecide;
  }

  lemma ReceiveStep(cfg: Config, s: World, step: Step)
    requires step.Receive?
    ensures CanStep(cfg, s, step) <==> HasResponse(s, step.w)
    ensures CanStep(cfg, s, step) ==> After(cfg, s, step) == AfterReceive(s, step.w)
  {
    hide AfterReceive, HasResponse;
  }

  lemma FailStep(cfg: Config, s: World, step: Step)
    requires step.Fail?
    ensures CanStep(cfg, s, step) <==> step.w in s.workers
    ensures CanStep(cfg, s, step) ==> After(cfg, s, step) == Moved(s, step.w, Failed)
  {
    hide Moved;
  }

  lemma LockStep(cfg: Config, s: World, step: Step)
    requires step.LockRow?
    ensures CanStep(cfg, s, step) <==> InPhase(s, step.w, Succeeded) && MayWriteRow(s, step.w)
    ensures CanStep(cfg, s, step) ==> After(cfg, s, step) == AfterLock(s, step.w, step.now)
  {
    hide AfterLock, MayWriteRow;
  }

  lemma ReadStep(cfg: Config, s: World, step: Step)
    requires step.ReadLedger?
    ensures CanStep(cfg, s, step) <==> InPhase(s, step.w, Locked)
    ensures CanStep(cfg, s, step) ==> After(cfg, s, step) == AfterRead(s, step.w, step.doneAt)
  {
    hide AfterRead;
  }

  lemma CommitStep(cfg: Config, s: World, step: Step)
    requires step.Commit?
    ensures CanStep(cfg, s, step) <==> InPhase(s, step.w, Writing)
    ensures CanStep(cfg, s, step) ==> After(cfg, s, step) == AfterCommit(s, step.w, step.doneAt)
  {
    hide AfterCommit;
  }

  lemma GiveBackStep(cfg: Config, s: World, step: Step)
    requires step.GiveBack?
    ensures CanStep(cfg, s, step) <==> InPhase(s, step.w, Failed) && MayWriteRow(s, step.w)
    ensures CanStep(cfg, s, step) ==> After(cfg, s, step) == AfterGiveBack(s, step.w, step.now, step.nextAt)
  {
    hide AfterGiveBack, MayWriteRow;
  }

  lemma RenewStep(cfg: Config, s: World, step: Step)
    requires step.Renew?
    ensures CanStep(cfg, s, step) <==>
          step.claim in s.issued && Max(s.clock, step.now) <= step.later && !RowLocked(s.workers, step.claim.eventId)
    ensures CanStep(cfg, s, step) ==> After(cfg, s, step) == s.(
              inbox := RenewedInbox(s.inbox, step.claim, step.now, cfg.limits.leaseMs),
              permits := RenewedPermits(s.inbox, s.permits, step.claim, step.now, step.later, cfg.limits.leaseMs),
              clock := step.later)
  {
    hide RowLocked, RenewedInbox, RenewedPermits;
  }

  // ---- runs

  predicate IsRun(cfg: Config, s: World, run: seq<Step>)
    decreases |run|
  {
    run == [] || (CanStep(cfg, s, run[0]) && IsRun(cfg, After(cfg, s, run[0]), run[1..]))
  }

  function End(cfg: Config, s: World, run: seq<Step>): World
    requires IsRun(cfg, s, run)
    decreases |run|
  {
    if run == [] then s else End(cfg, After(cfg, s, run[0]), run[1..])
  }

  lemma Prepend(cfg: Config, s: World, step: Step, rest: seq<Step>)
    requires CanStep(cfg, s, step) && IsRun(cfg, After(cfg, s, step), rest)
    ensures IsRun(cfg, s, [step] + rest) && End(cfg, s, [step] + rest) == End(cfg, After(cfg, s, step), rest)
  {
    assert ([step] + rest)[1..] == rest;
  }

  lemma OneStep(cfg: Config, s: World, step: Step)
    requires CanStep(cfg, s, step)
    ensures IsRun(cfg, s, [step]) && End(cfg, s, [step]) == After(cfg, s, step)
  {
    hide CanStep, After;
    assert [step][1..] == [];
  }

  lemma {:induction false} Concatenate(cfg: Config, s: World, run: seq<Step>, rest: seq<Step>)
    requires IsRun(cfg, s, run) && IsRun(cfg, End(cfg, s, run), rest)
    ensures IsRun(cfg, s, run + rest) && End(cfg, s, run + rest) == End(cfg, End(cfg, s, run), rest)
    decreases |run|
  {
    hide CanStep, After;
    if run == [] {
      assert run + rest == rest;
    } else {
      Concatenate(cfg, After(cfg, s, run[0]), run[1..], rest);
      assert (run + rest)[1..] == run[1..] + rest;
    }
  }
}
