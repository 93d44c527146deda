/**
 * A renewal that comes too late: a run in which a recording transaction holds the row while the lease runs
 * out and the permit slot is given away, and the renewal that waited for the row then brings the claim back.
 */
module LateRenewals {
  import opened Domain
  import opened InboxTables
  import opened SellerApi
  import opened DeliveryProtocol
  import opened DeliveryProgress
  import DeliverySteps
  import opened ConflictRuns
  import opened LeaseTheorems

  /** Two first operations of one seller with a single permit, in one partition. */
  ghost predicate IsCramped(cfg: Config, one: Event, two: Event) {
    && cfg.Valid() && cfg.inboxMode && cfg.limits.sellerPermits == 1 && cfg.limits.leaseMs >= 1
    && cfg.pendingLimit >= 2 && cfg.retainedLimit >= 2 && 0 in cfg.topic && cfg.topic[0] == [one, two]
    && one.sellerId == two.sellerId && one.Key() != two.Key() && one.sequence == 1 && two.sequence == 1
  }

  /** An untouched row of the event. */
  predicate Waits(s: World, e: Event) {
    && e.eventId in s.inbox && s.inbox[e.eventId].event == e && s.inbox[e.eventId].state == PENDING
    && s.inbox[e.eventId].attempts == 0 && s.inbox[e.eventId].nextAt == 0 && s.inbox[e.eventId].generation == 0
    && e.eventId !in s.effects && LastSequence(s.orders, e.Key()) == 0
  }

  function At(t: int): ClaimClock {
    ClaimClock(t, t, t, t, t, t)
  }

  function TokenOf(e: Event, instance: InstanceId): Claim {
    Claim(e.eventId, e.sellerId, instance, 1, 1, false, false)
  }

  function SlotOf(e: Event): Slot {
    Slot(e.sellerId, 1)
  }

  lemma CrampedEvents(cfg: Config, one: Event, two: Event)
    requires IsCramped(cfg, one, two)
    ensures Known(cfg.catalogue, one) && Known(cfg.catalogue, two) && one.eventId != two.eventId
  {
    assert Known(cfg.catalogue, cfg.topic[0][0]) && Known(cfg.catalogue, cfg.topic[0][1]);
  }

  // ---- intake

  lemma BothAreStored(one: Event, two: Event, records: seq<Record>, pendingLimit: nat, retainedLimit: nat)
    requires records == [Record(one, 0, 0), Record(two, 0, 1)] && one.eventId != two.eventId
    requires pendingLimit >= 2 && retainedLimit >= 2
    ensures var after := StoreAll(map[], map[], records, pendingLimit, retainedLimit, 0);
            && after.Some? && after.value.Keys == {one.eventId, two.eventId}
            && after.value[one.eventId] == NewRow(records[0], 0) && after.value[two.eventId] == NewRow(records[1], 0)
  {
    var none: Inbox := map[];
    var ids := NewIds(none, map[], records);
    assert records[0] in records && records[1] in records;
    assert ids == {one.eventId, two.eventId};
    assert |ids| == 2;
    assert PendingIds(none) == {};
    var added := AddedRows(none, map[], records, 0);
    assert none + added == added;
    assert FirstRecord(records, one.eventId) == records[0];
    assert FirstRecord(records, two.eventId) == FirstRecord(records[1..], two.eventId) == records[1];
  }

  lemma BothArePolled(cfg: Config, s: World, one: Event, two: Event, records: seq<Record>)
    requires IsCramped(cfg, one, two) && s.positions == map[Cursor(0, 0) := 0]
    requires records == [Record(one, 0, 0), Record(two, 0, 1)]
    ensures IsPoll(cfg, s.positions, 0, map[0 := 2], records)
  {
    assert cfg.topic[0][0] == one && cfg.topic[0][1] == two;
    forall o | 0 <= o < 2
      ensures Record(cfg.topic[0][o], 0, o) in records
    {
      assert Record(cfg.topic[0][o], 0, o) == records[o];
    }
  }

  lemma PlacedAtStart(cfg: Config, clock: int)
    requires 0 in cfg.topic
    ensures var assign := Assign(Cursor(0, 0), 0);
            && CanStep(cfg, Initial(clock), assign)
            && After(cfg, Initial(clock), assign) == Initial(clock).(positions := map[Cursor(0, 0) := 0])
  {
  }

  lemma PolledWait(cfg: Config, s: World, one: Event, two: Event, records: seq<Record>)
    requires IsCramped(cfg, one, two) && records == [Record(one, 0, 0), Record(two, 0, 1)]
    requires s.inbox == map[] && s.effects == map[] && s.orders == map[]
    ensures var t := AfterPoll(cfg, s, 0, map[0 := 2], records, 0);
            && Waits(t, one) && Waits(t, two)
            && t == s.(inbox := t.inbox, positions := t.positions, acks := t.acks)
  {
    CrampedEvents(cfg, one, two);
    BothAreStored(one, two, records, cfg.pendingLimit, cfg.retainedLimit);
    hide StoreAll, IsCramped;
  }

  /** The state after both events were stored. */
  ghost predicate IsStored(s: World, clock: int, one: Event, two: Event) {
    && Waits(s, one) && Waits(s, two) && s.permits == map[] && s.workers == map[] && s.clock == clock
    && s.seller == NEW_SELLER
  }

  lemma PollBoth(cfg: Config, clock: int, one: Event, two: Event) returns (run: seq<Step>)
    requires IsCramped(cfg, one, two)
    ensures IsRun(cfg, Initial(clock), run) && IsStored(End(cfg, Initial(clock), run), clock, one, two)
  {
    PlacedAtStart(cfg, clock);
    var s := Initial(clock);
    var records := [Record(one, 0, 0), Record(two, 0, 1)];
    var assign, poll := Assign(Cursor(0, 0), 0), Poll(0, map[0 := 2], records, 0);
    var placed := s.(positions := map[Cursor(0, 0) := 0]);
    BothArePolled(cfg, placed, one, two, records);
    PolledWait(cfg, placed, one, two, records);
    PollStep(cfg, placed, poll);
    hide CanStep, After, AfterPoll, IsPoll, IsRun, End, IsCramped, Waits;
    OneStep(cfg, placed, poll);
    Prepend(cfg, s, assign, [poll]);
    run := [assign] + [poll];
  }

  // ---- claiming

  /** An untouched first row meets nothing in its way, and the free slot is the first. */
  lemma WaitingIsDue(cfg: Config, s: World, instance: InstanceId, e: Event, t: int)
    requires cfg.limits.sellerPermits == 1 && Waits(s, e) && e.sequence == 1 && !RowLocked(s.workers, e.eventId)
    requires SlotOf(e) in s.permits ==> s.permits[SlotOf(e)].owner == None || s.permits[SlotOf(e)].leaseUntil < t
    ensures var permits := EnsuredPermits(cfg, s, e.sellerId, false);
            && ClaimEnds(s.inbox, permits, s.admissions, s.orders, e, cfg.limits, At(t), 0,
                 RowLocked(s.workers, e.eventId)) == Claimed
            && FirstFree(permits, e.sellerId, 1, 1, t).Some?
            && ClaimToken(s.inbox, permits, e, instance, cfg.limits, At(t)) == TokenOf(e, instance)
  {
    hide RowLocked, CountSince;
  }

  /** The claim of an untouched row takes the only slot, if it is free. */
  lemma WaitingIsClaimed(cfg: Config, s: World, w: nat, instance: InstanceId, e: Event, t: int)
    requires cfg.inboxMode && cfg.limits.sellerPermits == 1 && Waits(s, e) && e.sequence == 1 && Known(cfg.catalogue, e)
    requires w !in s.workers && !RowLocked(s.workers, e.eventId) && s.clock <= t
    requires SlotOf(e) in s.permits ==> s.permits[SlotOf(e)].owner == None || s.permits[SlotOf(e)].leaseUntil < t
    ensures var step := TryClaim(w, instance, e, At(t), 0, false);
            && CanStep(cfg, s, step)
            && var u, c := After(cfg, s, step), TokenOf(e, instance);
            && u.clock == t && u.effects == s.effects && u.orders == s.orders && u.seller == s.seller
            && c in u.issued && s.issued <= u.issued
            && u.inbox == s.inbox[e.eventId := ClaimedRow(s.inbox[e.eventId], c, t + cfg.limits.leaseMs)]
            && SlotOf(e) in u.permits && u.permits[SlotOf(e)] == HeldPermit(c, t + cfg.limits.leaseMs)
            && u.workers == s.workers[w := Worker(instance, e, Some(c), Ready)]
  {
    hide CanStep, After, ClaimEnds, FirstFree, ClaimToken, EnsuredPermits, CountSince, RowLocked, Known;
    var step, permits := TryClaim(w, instance, e, At(t), 0, false), EnsuredPermits(cfg, s, e.sellerId, false);
    ClaimStep(cfg, s, step);
    WaitingIsDue(cfg, s, instance, e, t);
    DeliverySteps.GrantStep(cfg, s, step, permits);
  }

  // ---- the call and the lock

  lemma FirstIsAccepted(s: World, w: nat, e: Event)
    requires w in s.workers && s.workers[w].phase.Calling? && s.workers[w].phase.request in s.requests
    requires e.sequence == 1 && IsAnswered(NEW_SELLER, e, FAIR, s.requests[s.workers[w].phase.request])
    ensures HasResponse(s, w) && s.requests[s.workers[w].phase.request].stage.status == OK
  {
  }

  lemma OnlyWorker(before: map<nat, Worker>, after: map<nat, Worker>, w: nat)
    requires before.Keys == {w} && w in after && after - {w} == before - {w}
    ensures after == map[w := after[w]]
  {
    assert forall v :: v in after && v != w ==> v in after - {w};
    assert forall v :: v in before - {w} ==> v in before && v != w;
  }

  lemma AnswerIsLocked(cfg: Config, s: World, w: nat, e: Event, c: Claim) returns (run: seq<Step>)
    requires s.workers.Keys == {w} && s.workers[w].event == e && s.workers[w].claim == Some(c)
    requires s.workers[w].instance == c.owner && Holds(s.inbox, c, s.clock)
    requires HasResponse(s, w) && s.requests[s.workers[w].phase.request].stage.status == OK
    ensures IsRun(cfg, s, run)
    ensures End(cfg, s, run) == s.(workers := map[w := Worker(c.owner, e, Some(c), Locked)])
  {
    hide IsRun, End, CanStep, After, Holds;
    ReceiveStep(cfg, s, Receive(w));
    var accepted := Moved(s, w, Succeeded);
    LockStep(cfg, accepted, LockRow(w, s.clock));
    OneStep(cfg, accepted, LockRow(w, s.clock));
    Prepend(cfg, s, Receive(w), [LockRow(w, s.clock)]);
    run := [Receive(w)] + [LockRow(w, s.clock)];
    assert Moved(accepted, w, Locked).workers == map[w := Worker(c.owner, e, Some(c), Locked)];
  }

  /** The only worker calls the seller, is answered 200 and opens its recording transaction. */
  lemma CallAndLock(cfg: Config, s: World, w: nat, e: Event, c: Claim) returns (run: seq<Step>)
    requires s.workers == map[w := Worker(c.owner, e, Some(c), Ready)] && s.seller == NEW_SELLER && e.sequence == 1
    requires e.eventId !in s.effects && LastSequence(s.orders, e.Key()) == 0 && Holds(s.inbox, c, s.clock)
    ensures IsRun(cfg, s, run)
    ensures var t := End(cfg, s, run);
            && t == s.(workers := t.workers, requests := t.requests, seller := t.seller)
            && t.workers == map[w := Worker(c.owner, e, Some(c), Locked)]
  {
    hide IsRun, End, Decided, Arrived, Holds, HasResponse, IsAnswered;
    var call := CanCall(cfg, s, w, e, FAIR);
    var called := End(cfg, s, call);
    FirstIsAccepted(called, w, e);
    OnlyWorker(s.workers, called.workers, w);
    var lock := AnswerIsLocked(cfg, called, w, e, c);
    Concatenate(cfg, s, call, lock);
    run := call + lock;
  }

  // ---- the late renewal

  lemma LateRenewalStep(cfg: Config, s: World, c: Claim, now: int, later: int)
    requires c in s.issued && Max(s.clock, now) <= later && !RowLocked(s.workers, c.eventId)
    requires Holds(s.inbox, c, now)
    ensures CanStep(cfg, s, Renew(c, now, later))
    ensures var t := After(cfg, s, Renew(c, now, later));
            && t.inbox == s.inbox[c.eventId := s.inbox[c.eventId].(leaseUntil := now + cfg.limits.leaseMs)]
            && t.clock == later
  {
    hide CanStep, After, RowLocked, RenewedPermits;
    RenewStep(cfg, s, Renew(c, now, later));
  }

  lemma BothRun(s: World, one: Event, two: Event)
    requires one.eventId in s.inbox && s.inbox[one.eventId].state == CLAIMED && s.inbox[one.eventId].event == one
    requires two.eventId in s.inbox && s.inbox[two.eventId].state == CLAIMED && s.inbox[two.eventId].event == two
    requires s.clock <= s.inbox[one.eventId].leaseUntil && s.clock <= s.inbox[two.eventId].leaseUntil
    requires one.sellerId == two.sellerId && one.eventId != two.eventId
    ensures |Running(s, one.sellerId)| >= 2
  {
    assert {one.eventId, two.eventId} <= Running(s, one.sellerId);
    SubsetIsSmaller({one.eventId, two.eventId}, Running(s, one.sellerId));
    assert |{one.eventId, two.eventId}| == 2;
  }

  lemma NotLocked(before: map<nat, Worker>, after: map<nat, Worker>, id: EventId)
    requires 0 in after && !after[0].Locks() && after - {0} == before - {0} && !RowLocked(before - {0}, id)
    ensures !RowLocked(after, id)
  {
    assert forall w :: w in after && w != 0 ==> w in after - {0} && (after - {0})[w] == after[w];
  }

  lemma LateRenewalOverbooks(cfg: Config, s: World, one: Event, two: Event, c: Claim, lapsed: int)
    returns (run: seq<Step>)
    requires 0 in s.workers && s.workers[0].Locks() && !RowLocked(s.workers - {0}, one.eventId) && c in s.issued
    requires c.eventId == one.eventId && Holds(s.inbox, c, lapsed) && s.inbox[one.eventId].event == one
    requires two.eventId in s.inbox && s.inbox[two.eventId].state == CLAIMED && s.inbox[two.eventId].event == two
    requires s.clock == lapsed + 1 && s.clock <= s.inbox[two.eventId].leaseUntil && cfg.limits.leaseMs >= 1
    requires one.sellerId == two.sellerId && one.eventId != two.eventId
    ensures IsRun(cfg, s, run) && |Running(End(cfg, s, run), one.sellerId)| >= 2
  {
    hide IsRun, End, CanStep, After, RenewedPermits;
    FailStep(cfg, s, Fail(0));
    var failed, renew := Moved(s, 0, Failed), Renew(c, lapsed, lapsed + 1);
    NotLocked(s.workers, failed.workers, one.eventId);
    LateRenewalStep(cfg, failed, c, lapsed, lapsed + 1);
    BothRun(After(cfg, failed, renew), one, two);
    OneStep(cfg, failed, renew);
    Prepend(cfg, s, Fail(0), [renew]);
    run := [Fail(0)] + [renew];
  }

  lemma OnlyLocks(workers: map<nat, Worker>, one: Event, two: Event)
    requires forall w :: w in workers && w != 0 ==> !workers[w].Locks()
    requires 0 in workers && workers[0].event == one && one.eventId != two.eventId
    ensures !RowLocked(workers, two.eventId) && !RowLocked(workers - {0}, one.eventId)
  {
  }

  /** The second row is claimed while the first one's recording stalls; then the renewal gets its turn. */
  lemma SlotIsGivenAway(cfg: Config, s: World, one: Event, two: Event, c: Claim, lapsed: int) returns (run: seq<Step>)
    requires IsCramped(cfg, one, two) && Waits(s, two) && c == TokenOf(one, 0) && c in s.issued
    requires s.workers == map[0 := Worker(0, one, Some(c), Locked)]
    requires one.eventId in s.inbox && s.inbox[one.eventId].event == one && Holds(s.inbox, c, lapsed)
    requires s.inbox[one.eventId].leaseUntil == lapsed && s.clock <= lapsed
    requires SlotOf(one) in s.permits && s.permits[SlotOf(one)].leaseUntil == lapsed
    ensures IsRun(cfg, s, run) && |Running(End(cfg, s, run), one.sellerId)| >= 2
  {
    hide IsRun, End, CanStep, After, LastSequence, Known, Running;
    CrampedEvents(cfg, one, two);
    var claim := TryClaim(1, 1, two, At(lapsed + 1), 0, false);
    OnlyLocks(s.workers, one, two);
    WaitingIsClaimed(cfg, s, 1, 1, two, lapsed + 1);
    var claimed := After(cfg, s, claim);
    OnlyLocks(claimed.workers, one, two);
    var late := LateRenewalOverbooks(cfg, claimed, one, two, c, lapsed);
    Prepend(cfg, s, claim, late);
    run := [claim] + late;
  }

  lemma {:induction false} OverbookingRevives(cfg: Config, s: World, run: seq<Step>)
    requires IsRun(cfg, s, run)
    ensures EverOverbooks(cfg, s, run) ==> EverRevives(cfg, s, run)
    decreases |run|
  {
    hide CanStep, After, Revives;
    if run != [] {
      OverbookingRevives(cfg, After(cfg, s, run[0]), run[1..]);
    }
  }

  /**
   * Such runs exist from the empty tables on: two claims of a seller with one permit run at the same time,
   * and the renewal is one that revives a claim whose slot was given away.
   */
  lemma OverbookingIsReachable(cfg: Config, clock: int, one: Event, two: Event) returns (run: seq<Step>)
    requires IsCramped(cfg, one, two)
    ensures IsRun(cfg, Initial(clock), run)
    ensures |Running(End(cfg, Initial(clock), run), one.sellerId)| > cfg.limits.sellerPermits
    ensures EverOverbooks(cfg, Initial(clock), run) && EverRevives(cfg, Initial(clock), run)
  {
    CrampedEvents(cfg, one, two);
    var poll := PollBoth(cfg, clock, one, two);
    var s := End(cfg, Initial(clock), poll);
    hide IsRun, End, CanStep, After, Known, Initial, EverOverbooks, EverRevives;
    var c, lapsed := TokenOf(one, 0), clock + cfg.limits.leaseMs;
    WaitingIsClaimed(cfg, s, 0, 0, one, clock);
    var claim := TryClaim(0, 0, one, At(clock), 0, false);
    var claimed := After(cfg, s, claim);
    var call := CallAndLock(cfg, claimed, 0, one, c);
    var locked := End(cfg, claimed, call);
    var late := SlotIsGivenAway(cfg, locked, one, two, c, lapsed);
    Concatenate(cfg, claimed, call, late);
    Prepend(cfg, s, claim, call + late);
    Concatenate(cfg, Initial(clock), poll, [claim] + (call + late));
    run := poll + ([claim] + (call + late));
    if !EverOverbooks(cfg, Initial(clock), run) {
      PermitsBoundRunningClaims(cfg, clock, run, one.sellerId);
    }
    OverbookingRevives(cfg, Initial(clock), run);
  }

  /** So the permit bound and the tokens' end are not theorems of every run. */
  lemma SomeRunOverbooks(clock: int) returns (cfg: Config, run: seq<Step>, sellerId: SellerId)
    ensures cfg.Valid() && IsRun(cfg, Initial(clock), run)
    ensures !LostStaysLost(cfg, Initial(clock), run) && !AlwaysOnOwnSlots(cfg, Initial(clock), run)
    ensures |Running(End(cfg, Initial(clock), run), sellerId)| > cfg.limits.sellerPermits
  {
    hide IsRun, End, Running, EverOverbooks, EverRevives, LostStaysLost, AlwaysOnOwnSlots, Initial;
    var one, two := Event(1, 1, 1, 1, 1, CREATE, 1, 1, 0.0), Event(2, 1, 1, 2, 1, CREATE, 1, 1, 0.0);
    cfg, sellerId := Config(map[1 := one, 2 := two], map[0 := [one, two]], Limits(1, 1, 1, 1), 2, 2, true), 1;
    run := OverbookingIsReachable(cfg, clock, one, two);
    TokenNeverHoldsAgain(cfg, clock, run);
    ClaimsStandOnTheirSlots(cfg, clock, run);
  }
}
