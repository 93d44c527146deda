/**
 * Leases over whole runs: when a token that stopped holding can hold again, and when running claims can
 * outnumber the permits. A statement that waited for a row lock is judged at the reading of the clock it
 * started with, so both depend on what a late renewal finds.
 */
module LeaseTheorems {
  import opened Domain
  import opened InboxTables
  import opened DeliveryProtocol
  import opened DeliveryInvariant
  import opened TableLemmas
  import opened IntakeLemmas
  import opened DeliverySteps
  import opened DeliveryTheorems

  // ---- the states of a run

  function StateAt(cfg: Config, s: World, run: seq<Step>, i: nat): World
    requires IsRun(cfg, s, run) && i <= |run|
    decreases i
  {
    if i == 0 then s else StateAt(cfg, After(cfg, s, run[0]), run[1..], i - 1)
  }

  predicate HoldsAt(s: World, c: Claim) {
    Holds(s.inbox, c, s.clock)
  }

  /**
   * The renewal finds a claim whose lease has run out, is judged at a reading at which it had not, and its
   * new lease reaches the present.
   */
  predicate Revives(limits: Limits, s: World, step: Step) {
    && step.Renew? && Names(s.inbox, step.claim) && s.inbox[step.claim.eventId].state == CLAIMED
    && step.now <= s.inbox[step.claim.eventId].leaseUntil < s.clock && step.later <= step.now + limits.leaseMs
  }

  /** And its permit slot has been given away. */
  predicate Overbooks(limits: Limits, s: World, step: Step) {
    Revives(limits, s, step) && !HoldsPermit(s.permits, step.claim)
  }

  predicate EverRevives(cfg: Config, s: World, run: seq<Step>)
    requires IsRun(cfg, s, run)
    decreases |run|
  {
    run != [] && (Revives(cfg.limits, s, run[0]) || EverRevives(cfg, After(cfg, s, run[0]), run[1..]))
  }

  predicate EverOverbooks(cfg: Config, s: World, run: seq<Step>)
    requires IsRun(cfg, s, run)
    decreases |run|
  {
    run != [] && (Overbooks(cfg.limits, s, run[0]) || EverOverbooks(cfg, After(cfg, s, run[0]), run[1..]))
  }

  lemma {:induction false} StateAtIsNext(cfg: Config, s: World, run: seq<Step>, i: nat)
    requires IsRun(cfg, s, run) && i < |run|
    ensures CanStep(cfg, StateAt(cfg, s, run, i), run[i])
    ensures StateAt(cfg, s, run, i + 1) == After(cfg, StateAt(cfg, s, run, i), run[i])
    decreases i
  {
    hide CanStep, After;
    if i > 0 {
      StateAtIsNext(cfg, After(cfg, s, run[0]), run[1..], i - 1);
    } else {
      var next := After(cfg, s, run[0]);
      assert StateAt(cfg, next, run[1..], 0) == next;
    }
  }

  lemma {:induction false} RevivalAt(cfg: Config, s: World, run: seq<Step>) returns (i: nat)
    requires IsRun(cfg, s, run) && EverRevives(cfg, s, run)
    ensures i < |run| && Revives(cfg.limits, StateAt(cfg, s, run, i), run[i])
    decreases |run|
  {
    hide CanStep, After, Revives;
    if Revives(cfg.limits, s, run[0]) {
      i := 0;
    } else {
      var k := RevivalAt(cfg, After(cfg, s, run[0]), run[1..]);
      i := k + 1;
    }
  }

  lemma {:induction false} OverbookingAt(cfg: Config, s: World, run: seq<Step>) returns (i: nat)
    requires IsRun(cfg, s, run) && EverOverbooks(cfg, s, run)
    ensures i < |run| && Overbooks(cfg.limits, StateAt(cfg, s, run, i), run[i])
    decreases |run|
  {
    hide CanStep, After, Overbooks;
    if Overbooks(cfg.limits, s, run[0]) {
      i := 0;
    } else {
      var k := OverbookingAt(cfg, After(cfg, s, run[0]), run[1..]);
      i := k + 1;
    }
  }

  // ---- tokens

  lemma GrantRevivesNothing(
    limits: Limits, s: World, w: nat, e: Event, d: Claim, permits: Permits, at: ClaimClock, c: Claim)
    requires e.eventId in s.inbox && d.eventId == e.eventId && d.generation == s.inbox[e.eventId].generation + 1
    requires c.eventId in s.inbox ==> c.generation <= s.inbox[c.eventId].generation
    requires c in s.issued && !Holds(s.inbox, c, s.clock) && s.clock <= at.permit
    ensures var t := Granted(limits, s, w, e, d, permits, at);
            c in t.issued && !Holds(t.inbox, c, t.clock)
  {
  }

  lemma TokenIsFree(inbox: Inbox, permits: Permits, e: Event, owner: InstanceId, limits: Limits, at: ClaimClock)
    requires e.eventId in inbox && FirstFree(permits, e.sellerId, 1, limits.sellerPermits, at.permits).Some?
    ensures var c := ClaimToken(inbox, permits, e, owner, limits, at);
            && c.eventId == e.eventId && c.generation == inbox[e.eventId].generation + 1
            && IsFree(permits, Slot(c.sellerId, c.slot), at.permits)
  {
    hide IsFree;
  }

  lemma GivingBackRevivesNothing(inbox: Inbox, d: Claim, now: int, nextAt: int, c: Claim, clock: int, later: int)
    requires !Holds(inbox, c, clock) && clock <= later
    ensures !Holds(inbox, c, later) && !Holds(GivenBack(inbox, d, now, nextAt), c, later)
  {
  }

  lemma ClaimRevivesNothing(cfg: Config, s: World, step: Step, c: Claim)
    requires Inv(cfg, s) && CanStep(cfg, s, step) && step.TryClaim? && c in s.issued && !Holds(s.inbox, c, s.clock)
    ensures c in After(cfg, s, step).issued && !Holds(After(cfg, s, step).inbox, c, After(cfg, s, step).clock)
  {
    hide Inv, CanStep, After, Granted, ClaimToken, ClaimEnds, EnsuredPermits, RowLocked, FirstFree, CountSince, Known;
    var permits := EnsuredPermits(cfg, s, step.event.sellerId, step.cached);
    IssuedToken(cfg, s, c);
    ClaimStep(cfg, s, step);
    GivingBackRevivesNothing(s.inbox, c, 0, 0, c, s.clock, step.at.permit);
    if ClaimEnds(s.inbox, permits, s.admissions, s.orders, step.event, cfg.limits, step.at, step.appNow,
      RowLocked(s.workers, step.event.eventId)) == Claimed {
      GrantStep(cfg, s, step, permits);
      TokenIsFree(s.inbox, permits, step.event, step.instance, cfg.limits, step.at);
      GrantRevivesNothing(cfg.limits, s, step.w, step.event,
        ClaimToken(s.inbox, permits, step.event, step.instance, cfg.limits, step.at), permits, step.at, c);
    }
  }

  lemma PollRevivesNothing(cfg: Config, s: World, step: Step, c: Claim)
    requires Inv(cfg, s) && CanStep(cfg, s, step) && step.Poll? && c in s.issued && !Holds(s.inbox, c, s.clock)
    ensures c in After(cfg, s, step).issued && !Holds(After(cfg, s, step).inbox, c, After(cfg, s, step).clock)
  {
    hide Inv, CanStep, After, IsPoll, StoreAll, IsFresh, Advanced;
    PollStep(cfg, s, step);
    IssuedToken(cfg, s, c);
    StoreAllIsExact(s.inbox, s.effects, step.records, cfg.pendingLimit, cfg.retainedLimit, step.receivedAt);
  }

  lemma CompletionRevivesNothing(inbox: Inbox, d: Claim, doneAt: int, c: Claim, clock: int, now: int)
    requires !Holds(inbox, c, clock)
    ensures !Holds(Completed(inbox, d, doneAt), c, clock)
    ensures clock <= now ==> !Holds(inbox, c, now) && !Holds(Completed(inbox, d, doneAt), c, now)
  {
  }

  lemma PurgeRevivesNothing(inbox: Inbox, c: Claim, clock: int)
    requires !Holds(inbox, c, clock)
    ensures forall ids: set<EventId> :: !Holds(inbox - ids, c, clock)
  {
  }

  lemma CommitRevivesNothing(cfg: Config, s: World, step: Step, c: Claim)
    requires CanStep(cfg, s, step) && c in s.issued && !Holds(s.inbox, c, s.clock) && step.Commit?
    ensures c in After(cfg, s, step).issued && !Holds(After(cfg, s, step).inbox, c, After(cfg, s, step).clock)
  {
    hide CanStep, After, Holds, Completed, ReleasedBy, Collides;
    CommitStep(cfg, s, step);
    var claim := s.workers[step.w].claim;
    if claim.Some? {
      CompletionRevivesNothing(s.inbox, claim.value, step.doneAt, c, s.clock, s.clock);
    }
  }

  lemma ReadingRevivesNothing(cfg: Config, s: World, step: Step, c: Claim)
    requires CanStep(cfg, s, step) && c in s.issued && !Holds(s.inbox, c, s.clock) && step.ReadLedger?
    ensures c in After(cfg, s, step).issued && !Holds(After(cfg, s, step).inbox, c, After(cfg, s, step).clock)
  {
    hide CanStep, After, Holds, Completed, ReleasedBy, LastSequence;
    ReadStep(cfg, s, step);
    var claim := s.workers[step.w].claim;
    if claim.Some? {
      CompletionRevivesNothing(s.inbox, claim.value, step.doneAt, c, s.clock, s.clock);
    }
  }

  lemma DuplicateRevivesNothing(cfg: Config, s: World, step: Step, c: Claim)
    requires CanStep(cfg, s, step) && c in s.issued && !Holds(s.inbox, c, s.clock) && step.FinishDuplicate?
    ensures c in After(cfg, s, step).issued && !Holds(After(cfg, s, step).inbox, c, After(cfg, s, step).clock)
  {
    hide CanStep, After, Holds, Completed, Released, MayWriteRow;
    DuplicateStep(cfg, s, step);
    var claim, later := s.workers[step.w].claim, Max(s.clock, step.now);
    GivingBackRevivesNothing(s.inbox, c, 0, 0, c, s.clock, later);
    if claim.Some? {
      CompletionRevivesNothing(s.inbox, claim.value, step.doneAt, c, s.clock, later);
    }
  }

  lemma GiveBackRevivesNothing(cfg: Config, s: World, step: Step, c: Claim)
    requires CanStep(cfg, s, step) && c in s.issued && !Holds(s.inbox, c, s.clock) && step.GiveBack?
    ensures c in After(cfg, s, step).issued && !Holds(After(cfg, s, step).inbox, c, After(cfg, s, step).clock)
  {
    hide CanStep, After, Holds, GivenBack, Released, MayWriteRow;
    GiveBackStep(cfg, s, step);
    var claim, later := s.workers[step.w].claim, Max(s.clock, step.now);
    GivingBackRevivesNothing(s.inbox, c, 0, 0, c, s.clock, later);
    if claim.Some? {
      GivingBackRevivesNothing(s.inbox, claim.value, step.now, step.nextAt, c, s.clock, later);
    }
  }

  /** Two tokens that name one row are one. */
  lemma TokensAreOne(cfg: Config, s: World, c: Claim, d: Claim)
    requires Inv(cfg, s) && c in s.issued && d in s.issued && c.eventId == d.eventId
    ensures Names(s.inbox, c) && Names(s.inbox, d) ==> c == d
  {
    hide LedgerOk, InboxOk, WorkersOk, LocksOk, OrderOk, CallsOk, SellerOk, GapOk, OffsetsOk, CapacityOk, BudgetOk,
      WellNumbered;
  }

  lemma RenewalRevivesNothing(cfg: Config, s: World, step: Step, c: Claim)
    requires CanStep(cfg, s, step) && c in s.issued && !HoldsAt(s, c) && step.Renew?
    requires Inv(cfg, s) && !Revives(cfg.limits, s, step)
    ensures var t := After(cfg, s, step); c in t.issued && !HoldsAt(t, c)
  {
    hide Inv, CanStep, After, RowLocked, RenewedPermits;
    RenewStep(cfg, s, step);
    if Names(s.inbox, c) && step.claim.eventId == c.eventId {
      TokensAreOne(cfg, s, c, step.claim);
    }
  }

  lemma RowPurgeRevivesNothing(cfg: Config, s: World, step: Step, c: Claim)
    requires CanStep(cfg, s, step) && step.PurgeDone? && c in s.issued && !HoldsAt(s, c)
    ensures var t := After(cfg, s, step); c in t.issued && !HoldsAt(t, c)
  {
    hide Holds, MayPurge;
    PurgeRevivesNothing(s.inbox, c, s.clock);
  }

  /** No step but such a renewal gives a token that holds nothing its row back. */
  lemma StepRevivesNothing(cfg: Config, s: World, step: Step, c: Claim)
    requires Inv(cfg, s) && CanStep(cfg, s, step) && c in s.issued && !HoldsAt(s, c)
    requires !Revives(cfg.limits, s, step)
    ensures var t := After(cfg, s, step); c in t.issued && !HoldsAt(t, c)
  {
    hide Inv, CanStep, After, Holds, Revives;
    if step.Poll? {
      PollRevivesNothing(cfg, s, step, c);
    } else if step.TryClaim? {
      ClaimRevivesNothing(cfg, s, step, c);
    } else if step.FinishDuplicate? {
      DuplicateRevivesNothing(cfg, s, step, c);
    } else if step.GiveBack? {
      GiveBackRevivesNothing(cfg, s, step, c);
    } else if step.ReadLedger? {
      ReadingRevivesNothing(cfg, s, step, c);
    } else if step.Commit? {
      CommitRevivesNothing(cfg, s, step, c);
    } else if step.Renew? {
      RenewalRevivesNothing(cfg, s, step, c);
    } else if step.PurgeDone? {
      RowPurgeRevivesNothing(cfg, s, step, c);
    } else {
      OtherStepsKeepRows(cfg, s, step);
      GivingBackRevivesNothing(s.inbox, c, 0, 0, c, s.clock, After(cfg, s, step).clock);
    }
  }

  lemma {:induction false} LostTokenStaysLost(cfg: Config, s: World, run: seq<Step>, i: nat, c: Claim)
    requires Inv(cfg, s) && IsRun(cfg, s, run) && i <= |run| && c in s.issued && !HoldsAt(s, c)
    requires !EverRevives(cfg, s, run)
    ensures !HoldsAt(StateAt(cfg, s, run, i), c)
    decreases i
  {
    hide Inv, CanStep, After, HoldsAt, Revives;
    if i > 0 {
      StepRevivesNothing(cfg, s, run[0], c);
      StepKeepsInv(cfg, s, run[0]);
      LostTokenStaysLost(cfg, After(cfg, s, run[0]), run[1..], i - 1, c);
    }
  }

  lemma {:induction false} LostStaysLostFrom(cfg: Config, s: World, run: seq<Step>, i: nat, j: nat, c: Claim)
    requires Inv(cfg, s) && IsRun(cfg, s, run) && i <= j <= |run| && !EverRevives(cfg, s, run)
    requires c in StateAt(cfg, s, run, i).issued && !HoldsAt(StateAt(cfg, s, run, i), c)
    ensures !HoldsAt(StateAt(cfg, s, run, j), c)
    decreases i
  {
    hide Inv, CanStep, After, HoldsAt, Revives;
    if i == 0 {
      LostTokenStaysLost(cfg, s, run, j, c);
    } else {
      StepKeepsInv(cfg, s, run[0]);
      LostStaysLostFrom(cfg, After(cfg, s, run[0]), run[1..], i - 1, j - 1, c);
    }
  }

  predicate IsLost(s: World, c: Claim) {
    c in s.issued && !HoldsAt(s, c)
  }

  /** No token that has stopped holding in some state of the run holds in a later one. */
  ghost predicate LostStaysLost(cfg: Config, s: World, run: seq<Step>)
    requires IsRun(cfg, s, run)
  {
    forall i, j, c :: 0 <= i <= j <= |run| && IsLost(StateAt(cfg, s, run, i), c) ==>
      !HoldsAt(StateAt(cfg, s, run, j), c)
  }

  lemma RevivedHolds(cfg: Config, s: World, step: Step)
    requires CanStep(cfg, s, step) && Revives(cfg.limits, s, step)
    ensures step.claim in s.issued && !HoldsAt(s, step.claim)
    ensures step.claim in After(cfg, s, step).issued && HoldsAt(After(cfg, s, step), step.claim)
    ensures After(cfg, s, step).permits
          == RenewedPermits(s.inbox, s.permits, step.claim, step.now, step.later, cfg.limits.leaseMs)
  {
    hide CanStep, After, RowLocked, RenewedPermits;
    RenewStep(cfg, s, step);
  }

  /**
   * In every run, a token that has once stopped holding - lapsed, given back, completed or superseded - never
   * holds again, across renewals, purges and redelivery of the event, if and only if no renewal revived one.
   */
  lemma TokenNeverHoldsAgain(cfg: Config, clock: int, run: seq<Step>)
    requires cfg.Valid() && IsRun(cfg, Initial(clock), run)
    ensures LostStaysLost(cfg, Initial(clock), run) <==> !EverRevives(cfg, Initial(clock), run)
  {
    var s := Initial(clock);
    InitialInv(cfg, clock);
    hide Inv, CanStep, After, HoldsAt, Revives, Initial, IsRun, EverRevives, StateAt;
    if EverRevives(cfg, s, run) {
      var k := RevivalAt(cfg, s, run);
      StateAtIsNext(cfg, s, run, k);
      RevivedHolds(cfg, StateAt(cfg, s, run, k), run[k]);
      var c := run[k].claim;
      assert 0 <= k <= k + 1 <= |run|;
      assert IsLost(StateAt(cfg, s, run, k), c);
      assert HoldsAt(StateAt(cfg, s, run, k + 1), c);
    } else {
      forall i, j, c | 0 <= i <= j <= |run| && IsLost(StateAt(cfg, s, run, i), c)
        ensures !HoldsAt(StateAt(cfg, s, run, j), c)
      {
        LostStaysLostFrom(cfg, s, run, i, j, c);
      }
    }
  }

  // ---- permits

  /** The seller's rows whose claim is alive at the protocol's clock. */
  function Running(s: World, sellerId: SellerId): set<EventId> {
    set id | id in s.inbox && s.inbox[id].state == CLAIMED && s.inbox[id].leaseUntil >= s.clock
      && s.inbox[id].event.sellerId == sellerId
  }

  /** The slot carries the token under which the row is claimed. */
  ghost predicate Carries(s: World, slot: Slot, id: EventId) {
    && slot in s.permits && id in s.inbox
    && s.permits[slot].eventId == Some(id) && s.permits[slot].owner == s.inbox[id].owner
    && s.permits[slot].generation == s.inbox[id].generation
  }

  ghost predicate Booked(cfg: Config, s: World) {
    PermitsOk(s.inbox, s.permits, s.issued, cfg.limits.sellerPermits, s.clock)
  }

  lemma TimeKeepsBooked(cfg: Config, s: World, t: World)
    requires Booked(cfg, s) && t.inbox == s.inbox && t.permits == s.permits && t.issued == s.issued
    requires s.clock <= t.clock
    ensures Booked(cfg, t)
  {
    TimeKeepsPermits(s.inbox, s.permits, s.issued, cfg.limits.sellerPermits, s.clock, t.clock);
  }

  lemma PollKeepsBooked(cfg: Config, s: World, step: Step)
    requires Inv(cfg, s) && Booked(cfg, s) && CanStep(cfg, s, step) && step.Poll?
    ensures Booked(cfg, After(cfg, s, step))
  {
    hide Inv, CanStep, After, IsPoll, StoreAll, PermitsOk, TokensOk, InboxOk, Advanced;
    PollStep(cfg, s, step);
    TablesOfInv(cfg, s);
    PolledIsKnown(cfg, s.positions, step.instance, step.upto, step.records);
    StoreKeepsPermits(cfg.catalogue, s.inbox, s.effects, s.permits, s.issued, cfg.limits.sellerPermits, s.clock,
      step.records, cfg.pendingLimit, cfg.retainedLimit, step.receivedAt);
  }

  lemma GrantedIsBooked(cfg: Config, s: World, w: nat, e: Event, c: Claim, permits: Permits, at: ClaimClock)
    requires TokensOk(cfg.catalogue, s.inbox, s.effects, s.issued)
    requires PermitsOk(s.inbox, permits, s.issued, cfg.limits.sellerPermits, s.clock)
    requires e.eventId in s.inbox && c.eventId == e.eventId && c.generation == s.inbox[e.eventId].generation + 1
    requires IsFree(permits, Slot(c.sellerId, c.slot), at.permits) && at.Ordered() && s.clock <= at.row
    ensures Booked(cfg, Granted(cfg.limits, s, w, e, c, permits, at))
  {
    hide TokensOk, PermitsOk;
    var leaseUntil, permitUntil := at.inbox + cfg.limits.leaseMs, at.permit + cfg.limits.leaseMs;
    var seen := Max(s.clock, at.permits);
    TimeKeepsPermits(s.inbox, permits, s.issued, cfg.limits.sellerPermits, s.clock, seen);
    ClaimKeepsPermits(cfg.catalogue, s.inbox, s.effects, permits, s.issued, cfg.limits.sellerPermits, seen, c,
      leaseUntil, permitUntil);
    var t := Granted(cfg.limits, s, w, e, c, permits, at);
    TimeKeepsPermits(t.inbox, t.permits, t.issued, cfg.limits.sellerPermits, seen, at.permit);
  }

  lemma ClaimKeepsBooked(cfg: Config, s: World, step: Step)
    requires Inv(cfg, s) && Booked(cfg, s) && CanStep(cfg, s, step) && step.TryClaim?
    ensures Booked(cfg, After(cfg, s, step))
  {
    var e, at := step.event, step.at;
    hide CanStep, After, Inv, PermitsOk, TokensOk, Granted, ClaimToken, FirstFree, ClaimEnds, RowLocked;
    var permits := EnsuredPermits(cfg, s, e.sellerId, step.cached);
    EnsureKeepsPermits(s.inbox, s.permits, s.issued, cfg.limits.sellerPermits, s.clock, e.sellerId);
    ClaimStep(cfg, s, step);
    TablesOfInv(cfg, s);
    if ClaimEnds(s.inbox, permits, s.admissions, s.orders, e, cfg.limits, at, step.appNow,
      RowLocked(s.workers, e.eventId)) == Claimed {
      GrantStep(cfg, s, step, permits);
      TokenIsFree(s.inbox, permits, e, step.instance, cfg.limits, at);
      var c := ClaimToken(s.inbox, permits, e, step.instance, cfg.limits, at);
      GrantedIsBooked(cfg, s, step.w, e, c, permits, at);
    } else {
      TimeKeepsPermits(s.inbox, permits, s.issued, cfg.limits.sellerPermits, s.clock, at.permit);
    }
  }

  /** A token that holds nothing may leave its slot, whatever the clock has come to. */
  lemma ReleaseKeepsBooked(cfg: Config, s: World, c: Claim, clock: int)
    requires Inv(cfg, s) && Booked(cfg, s) && c in s.issued && s.clock <= clock && !Holds(s.inbox, c, clock)
    ensures PermitsOk(s.inbox, Released(s.permits, c), s.issued, cfg.limits.sellerPermits, clock)
  {
    TablesOfInv(cfg, s);
    hide Inv, PermitsOk, Released;
    TimeKeepsPermits(s.inbox, s.permits, s.issued, cfg.limits.sellerPermits, s.clock, clock);
    ReleaseKeepsPermits(s.inbox, s.permits, s.issued, cfg.limits.sellerPermits, clock, c);
  }

  /** So may one whose row has just stopped being claimed. */
  lemma UnclaimKeepsBooked(cfg: Config, s: World, c: Claim, row: Row, clock: int)
    requires Inv(cfg, s) && Booked(cfg, s) && c in s.issued && s.clock <= clock
    requires c.eventId in s.inbox && row.state != CLAIMED
    ensures PermitsOk(s.inbox[c.eventId := row], Released(s.permits, c), s.issued, cfg.limits.sellerPermits, clock)
  {
    TablesOfInv(cfg, s);
    hide Inv, PermitsOk, Released;
    TimeKeepsPermits(s.inbox, s.permits, s.issued, cfg.limits.sellerPermits, s.clock, clock);
    UnclaimKeepsPermits(s.inbox, s.permits, s.issued, cfg.limits.sellerPermits, clock, c.eventId, row);
    ReleaseKeepsPermits(s.inbox[c.eventId := row], s.permits, s.issued, cfg.limits.sellerPermits, clock, c);
  }

  lemma DuplicateKeepsBooked(cfg: Config, s: World, step: Step)
    requires Inv(cfg, s) && Booked(cfg, s) && CanStep(cfg, s, step) && step.FinishDuplicate?
    ensures Booked(cfg, After(cfg, s, step))
  {
    hide Inv, CanStep, After, PermitsOk, Released, MayWriteRow;
    DuplicateStep(cfg, s, step);
    var w, clock := step.w, Max(s.clock, step.now);
    WorkerOwnsItsClaim(cfg, s, w);
    if s.workers[w].claim.Some? {
      var c := s.workers[w].claim.value;
      DeliveredIsUnclaimed(cfg, s, c);
      ReleaseKeepsBooked(cfg, s, c, clock);
    } else {
      TimeKeepsPermits(s.inbox, s.permits, s.issued, cfg.limits.sellerPermits, s.clock, clock);
    }
  }

  lemma ReadingKeepsBooked(cfg: Config, s: World, step: Step)
    requires Inv(cfg, s) && Booked(cfg, s) && CanStep(cfg, s, step) && step.ReadLedger?
    ensures Booked(cfg, After(cfg, s, step))
  {
    hide Inv, CanStep, After, PermitsOk, Released, LastSequence;
    ReadStep(cfg, s, step);
    var w := step.w;
    WorkerOwnsItsClaim(cfg, s, w);
    if s.workers[w].claim.Some? && s.workers[w].event.eventId in s.effects {
      var c := s.workers[w].claim.value;
      DeliveredIsUnclaimed(cfg, s, c);
      ReleaseKeepsBooked(cfg, s, c, s.clock);
    }
  }

  lemma CommitKeepsBooked(cfg: Config, s: World, step: Step)
    requires Inv(cfg, s) && Booked(cfg, s) && CanStep(cfg, s, step) && step.Commit?
    ensures Booked(cfg, After(cfg, s, step))
  {
    hide CanStep, After, Inv, PermitsOk, Released, Collides;
    CommitStep(cfg, s, step);
    var w := step.w;
    WorkerOwnsItsClaim(cfg, s, w);
    if !Collides(s.effects, s.workers[w].event) && s.workers[w].claim.Some? {
      var c := s.workers[w].claim.value;
      LockedIsClaimed(cfg, s, w);
      var row := s.inbox[c.eventId].(state := DONE, doneAt := Some(step.doneAt), owner := None, leaseUntil := 0);
      UnclaimKeepsBooked(cfg, s, c, row, s.clock);
    }
  }

  lemma GiveBackKeepsBooked(cfg: Config, s: World, step: Step)
    requires Inv(cfg, s) && Booked(cfg, s) && CanStep(cfg, s, step) && step.GiveBack?
    ensures Booked(cfg, After(cfg, s, step))
  {
    hide Inv, CanStep, After, PermitsOk, Released, MayWriteRow;
    GiveBackStep(cfg, s, step);
    var w, clock := step.w, Max(s.clock, step.now);
    WorkerOwnsItsClaim(cfg, s, w);
    if s.workers[w].claim.None? {
      TimeKeepsPermits(s.inbox, s.permits, s.issued, cfg.limits.sellerPermits, s.clock, clock);
    } else {
      var c := s.workers[w].claim.value;
      if Holds(s.inbox, c, step.now) {
        var row := s.inbox[c.eventId].(state := PENDING, owner := None, leaseUntil := 0, nextAt := step.nextAt);
        UnclaimKeepsBooked(cfg, s, c, row, clock);
      } else {
        ReleaseKeepsBooked(cfg, s, c, clock);
      }
    }
  }

  lemma RenewalKeepsBooked(cfg: Config, s: World, step: Step)
    requires Inv(cfg, s) && Booked(cfg, s) && CanStep(cfg, s, step) && step.Renew? && !Overbooks(cfg.limits, s, step)
    ensures Booked(cfg, After(cfg, s, step))
  {
    hide Inv, PermitsOk, RowLocked, RenewedInbox, RenewedPermits, CanStep, After, DistinctTokens, TokensOk;
    TablesOfInv(cfg, s);
    RenewStep(cfg, s, step);
    RenewKeepsPermits(s.inbox, s.permits, s.issued, cfg.limits.sellerPermits, s.clock, step.now, step.later, step.claim,
      cfg.limits.leaseMs);
  }

  lemma PurgeKeepsBooked(cfg: Config, s: World, step: Step)
    requires Booked(cfg, s) && CanStep(cfg, s, step) && step.PurgeDone?
    ensures Booked(cfg, After(cfg, s, step))
  {
    hide MayPurge;
    forall c | c in s.issued && Holds(s.inbox - step.ids, c, s.clock)
      ensures Covered(s.inbox - step.ids, s.permits, c)
    {
      assert Holds(s.inbox, c, s.clock) && Covered(s.inbox, s.permits, c);
    }
  }

  lemma OtherStepsKeepPermits(cfg: Config, s: World, step: Step)
    requires CanStep(cfg, s, step)
    requires !step.Poll? && !step.TryClaim?
    requires !step.FinishDuplicate? && !step.ReadLedger? && !step.Commit? && !step.GiveBack? && !step.Renew?
    requires !step.PurgeDone?
    ensures After(cfg, s, step).permits == s.permits
  {
    hide IsPoll, RowLocked, MayPurge, Without, AfterPoll, AfterClaim, Holds;
  }

  /** Every step but an overbooking renewal leaves every running claim on its own slot. */
  lemma StepKeepsBooked(cfg: Config, s: World, step: Step)
    requires Inv(cfg, s) && Booked(cfg, s) && CanStep(cfg, s, step) && !Overbooks(cfg.limits, s, step)
    ensures Booked(cfg, After(cfg, s, step))
  {
    hide Inv, CanStep, After, Booked, Overbooks;
    if step.Poll? {
      PollKeepsBooked(cfg, s, step);
    } else if step.TryClaim? {
      ClaimKeepsBooked(cfg, s, step);
    } else if step.FinishDuplicate? {
      DuplicateKeepsBooked(cfg, s, step);
    } else if step.ReadLedger? {
      ReadingKeepsBooked(cfg, s, step);
    } else if step.Commit? {
      CommitKeepsBooked(cfg, s, step);
    } else if step.GiveBack? {
      GiveBackKeepsBooked(cfg, s, step);
    } else if step.Renew? {
      RenewalKeepsBooked(cfg, s, step);
    } else if step.PurgeDone? {
      PurgeKeepsBooked(cfg, s, step);
    } else {
      OtherStepsKeepRows(cfg, s, step);
      OtherStepsKeepPermits(cfg, s, step);
      TimeKeepsBooked(cfg, s, After(cfg, s, step));
    }
  }

  lemma {:induction false} RunKeepsBooked(cfg: Config, s: World, run: seq<Step>, i: nat)
    requires Inv(cfg, s) && Booked(cfg, s) && IsRun(cfg, s, run) && i <= |run| && !EverOverbooks(cfg, s, run)
    ensures Booked(cfg, StateAt(cfg, s, run, i))
    decreases i
  {
    hide Inv, CanStep, After, Booked, Overbooks;
    if i > 0 {
      StepKeepsBooked(cfg, s, run[0]);
      StepKeepsInv(cfg, s, run[0]);
      RunKeepsBooked(cfg, After(cfg, s, run[0]), run[1..], i - 1);
    }
  }

  /** Every running claim stands on the slot that its token names. */
  ghost predicate OnOwnSlots(s: World) {
    forall c :: c in s.issued && HoldsAt(s, c) ==> HoldsPermit(s.permits, c)
  }

  ghost predicate AlwaysOnOwnSlots(cfg: Config, s: World, run: seq<Step>)
    requires IsRun(cfg, s, run)
  {
    forall i :: 0 <= i <= |run| ==> OnOwnSlots(StateAt(cfg, s, run, i))
  }

  lemma BookedIsOnOwnSlots(cfg: Config, s: World)
    requires Booked(cfg, s)
    ensures OnOwnSlots(s)
  {
    forall c | c in s.issued && HoldsAt(s, c)
      ensures HoldsPermit(s.permits, c)
    {
      assert Covered(s.inbox, s.permits, c);
    }
  }

  lemma InitialBooked(cfg: Config, clock: int)
    ensures Booked(cfg, Initial(clock))
  {
  }

  lemma OverbookedIsOffSlot(cfg: Config, s: World, step: Step)
    requires CanStep(cfg, s, step) && Overbooks(cfg.limits, s, step)
    ensures !OnOwnSlots(After(cfg, s, step))
  {
    RevivedHolds(cfg, s, step);
    var t := After(cfg, s, step);
    hide CanStep, After;
    assert !HoldsPermit(t.permits, step.claim);
  }

  /**
   * Across all instances, in every state of a run the running claims stand on distinct permit slots that
   * carry their tokens, if and only if no renewal revived a claim whose slot had been given away.
   */
  lemma ClaimsStandOnTheirSlots(cfg: Config, clock: int, run: seq<Step>)
    requires cfg.Valid() && IsRun(cfg, Initial(clock), run)
    ensures AlwaysOnOwnSlots(cfg, Initial(clock), run) <==> !EverOverbooks(cfg, Initial(clock), run)
  {
    var s := Initial(clock);
    InitialInv(cfg, clock);
    InitialBooked(cfg, clock);
    hide Inv, CanStep, After, Booked, Initial, IsRun, EverOverbooks, StateAt, OnOwnSlots;
    if EverOverbooks(cfg, s, run) {
      var k := OverbookingAt(cfg, s, run);
      StateAtIsNext(cfg, s, run, k);
      OverbookedIsOffSlot(cfg, StateAt(cfg, s, run, k), run[k]);
      assert 0 <= k + 1 <= |run|;
    } else {
      forall i | 0 <= i <= |run|
        ensures OnOwnSlots(StateAt(cfg, s, run, i))
      {
        RunKeepsBooked(cfg, s, run, i);
        BookedIsOnOwnSlots(cfg, StateAt(cfg, s, run, i));
      }
    }
  }

  lemma {:induction false} LastState(cfg: Config, s: World, run: seq<Step>)
    requires IsRun(cfg, s, run)
    ensures StateAt(cfg, s, run, |run|) == End(cfg, s, run)
    decreases |run|
  {
    hide CanStep, After;
    if run != [] {
      LastState(cfg, After(cfg, s, run[0]), run[1..]);
    }
  }

  lemma RunningHasSlot(cfg: Config, s: World, sellerId: SellerId, id: EventId) returns (number: int)
    requires Inv(cfg, s) && Booked(cfg, s) && id in Running(s, sellerId)
    ensures 1 <= number <= cfg.limits.sellerPermits && Carries(s, Slot(sellerId, number), id)
  {
    hide LedgerOk, WorkersOk, LocksOk, OrderOk, CallsOk, SellerOk, GapOk, OffsetsOk, CapacityOk, BudgetOk, WellNumbered;
    var c :| c in s.issued && c.eventId == id && Names(s.inbox, c);
    assert TokenOk(cfg.catalogue, s.inbox, s.effects, c) && RowOk(cfg.catalogue, s.effects, s.orders, id, s.inbox[id]);
    assert Holds(s.inbox, c, s.clock) && Covered(s.inbox, s.permits, c);
    number := c.slot;
  }

  /** Distinct keys in distinct slots: no more keys than slots. */
  lemma {:induction false} Pigeonhole(ids: set<EventId>, s: World, sellerId: SellerId, count: nat)
    requires forall id :: id in ids ==> exists n :: 1 <= n <= count && Carries(s, Slot(sellerId, n), id)
    ensures |ids| <= count
    decreases count
  {
    if count == 0 {
      assert forall id :: id in ids ==> exists n :: 1 <= n <= count && Carries(s, Slot(sellerId, n), id);
      assert forall id :: id !in ids;
      assert ids == {};
    } else {
      var top := Slot(sellerId, count);
      var rest := set id | id in ids && !Carries(s, top, id);
      forall id | id in rest
        ensures exists n :: 1 <= n <= count - 1 && Carries(s, Slot(sellerId, n), id)
      {
        var n :| 1 <= n <= count && Carries(s, Slot(sellerId, n), id);
      }
      Pigeonhole(rest, s, sellerId, count - 1);
      if rest != ids {
        var id :| id in ids && id !in rest;
        assert ids <= rest + {id};
        SubsetIsSmaller(ids, rest + {id});
      }
    }
  }

  /** The seller's running claims stand on distinct slots of the seller, so there are no more than slots. */
  ghost predicate IsWithinPermits(cfg: Config, s: World, sellerId: SellerId) {
    && (forall id :: id in Running(s, sellerId) ==>
          exists n :: 1 <= n <= cfg.limits.sellerPermits && Carries(s, Slot(sellerId, n), id))
    && (forall n, i, j :: Carries(s, Slot(sellerId, n), i) && Carries(s, Slot(sellerId, n), j) ==> i == j)
    && |Running(s, sellerId)| <= cfg.limits.sellerPermits
  }

  lemma BookedIsWithinPermits(cfg: Config, s: World, sellerId: SellerId)
    requires Inv(cfg, s) && Booked(cfg, s)
    ensures IsWithinPermits(cfg, s, sellerId)
  {
    hide Inv, Booked, Running;
    forall id | id in Running(s, sellerId)
      ensures exists n :: 1 <= n <= cfg.limits.sellerPermits && Carries(s, Slot(sellerId, n), id)
    {
      var n := RunningHasSlot(cfg, s, sellerId, id);
    }
    Pigeonhole(Running(s, sellerId), s, sellerId, cfg.limits.sellerPermits);
  }

  /** So, as long as no renewal did that, there are never more running claims of a seller than its permits. */
  lemma PermitsBoundRunningClaims(cfg: Config, clock: int, run: seq<Step>, sellerId: SellerId)
    requires cfg.Valid() && IsRun(cfg, Initial(clock), run)
    ensures !EverOverbooks(cfg, Initial(clock), run) ==>
          IsWithinPermits(cfg, End(cfg, Initial(clock), run), sellerId)
  {
    ReachableInv(cfg, clock, run);
    InitialInv(cfg, clock);
    InitialBooked(cfg, clock);
    hide Inv, IsRun, End, Booked, EverOverbooks, StateAt, Initial, IsWithinPermits;
    if !EverOverbooks(cfg, Initial(clock), run) {
      RunKeepsBooked(cfg, Initial(clock), run, |run|);
      LastState(cfg, Initial(clock), run);
      BookedIsWithinPermits(cfg, End(cfg, Initial(clock), run), sellerId);
    }
  }
}
