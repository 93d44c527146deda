/** Which answers of the seller get lost: over every run at most one per event, and only an acceptance. */
module LostAnswers {
  import opened Domain
  import opened SellerApi
  import opened DeliveryProtocol
  import ConflictRuns

  // ---- at most one per event

  predicate IsLost(r: Request) {
    r.stage.Answered? && r.stage.lost
  }

  predicate SameArrival(a: Request, b: Request) {
    a.stage.Counted? && b.stage.Counted? && a.event.eventId == b.event.eventId && a.stage.count == b.stage.count
  }

  /** The request is the first arrival of its event, as far as that can still be told, and has been or may be lost. */
  predicate IsFirst(r: Request) {
    (r.stage.Counted? && r.stage.count == 0) || IsLost(r)
  }

  predicate AreBothFirst(a: Request, b: Request) {
    IsFirst(a) && IsFirst(b) && a.event.eventId == b.event.eventId
  }

  /** The arrivals of an event are counted from 0, each once, and only the first can be lost. */
  ghost predicate LossesOk(requests: map<nat, Request>, seller: Seller) {
    && (forall r :: r in requests && requests[r].stage.Counted? ==>
          requests[r].stage.count < Count(seller, requests[r].event.eventId))
    && (forall q, r :: q in requests && r in requests && SameArrival(requests[q], requests[r]) ==> q == r)
    && (forall r :: r in requests && IsLost(requests[r]) ==>
          requests[r].stage.status == OK && Count(seller, requests[r].event.eventId) > 0)
    && (forall q, r :: q in requests && r in requests && AreBothFirst(requests[q], requests[r]) ==> q == r)
  }

  lemma ArriveKeepsLosses(s: World, r: nat)
    requires LossesOk(s.requests, s.seller) && r in s.requests && s.requests[r].stage.Travelling?
    ensures LossesOk(AfterArrive(s, r).requests, AfterArrive(s, r).seller)
  {
  }

  /** The injected fault takes the first accepted answer of an event and no other. */
  lemma OnlyFirstIsDropped(seller: Seller, e: Event, count: nat, policy: Policy)
    ensures Dropped(seller, e, count, policy) <==>
          policy.dropResponse && count == 0 && Status(seller, e, count, policy) == OK
  {
  }

  lemma DecideKeepsLosses(s: World, r: nat, policy: Policy)
    requires LossesOk(s.requests, s.seller) && r in s.requests && s.requests[r].stage.Counted?
    requires s.requests[r].stage.attempt < |s.seller.attempts|
    ensures LossesOk(AfterDecide(s, r, policy).requests, AfterDecide(s, r, policy).seller)
  {
    var t, e, count := AfterDecide(s, r, policy), s.requests[r].event, s.requests[r].stage.count;
    OnlyFirstIsDropped(s.seller, e, count, policy);
    hide Status, Dropped, Applies;
    assert t.seller.counts == s.seller.counts;
    assert IsFirst(t.requests[r]) ==> IsFirst(s.requests[r]);
    forall q, p | q in t.requests && p in t.requests && AreBothFirst(t.requests[q], t.requests[p])
      ensures q == p
    {
      assert AreBothFirst(s.requests[q], s.requests[p]);
    }
    forall q, p | q in t.requests && p in t.requests && SameArrival(t.requests[q], t.requests[p])
      ensures q == p
    {
      assert SameArrival(s.requests[q], s.requests[p]);
    }
  }

  lemma SendKeepsLosses(s: World, w: nat, r: nat)
    requires LossesOk(s.requests, s.seller) && w in s.workers && r !in s.requests
    ensures LossesOk(AfterSend(s, w, r).requests, AfterSend(s, w, r).seller)
  {
  }

  lemma StepKeepsLosses(cfg: Config, s: World, step: Step)
    requires LossesOk(s.requests, s.seller) && CanStep(cfg, s, step)
    ensures LossesOk(After(cfg, s, step).requests, After(cfg, s, step).seller)
  {
    hide CanStep, After, LossesOk, AfterArrive, AfterDecide, AfterSend;
    if step.Send? {
      SendStep(cfg, s, step);
      SendKeepsLosses(s, step.w, step.request);
    } else if step.Arrive? {
      ArriveStep(cfg, s, step);
      ArriveKeepsLosses(s, step.request);
    } else if step.Decide? {
      DecideStep(cfg, s, step);
      DecideKeepsLosses(s, step.request, step.policy);
    } else {
      ConflictRuns.OtherStepsKeepSeller(cfg, s, step);
    }
  }

  lemma {:induction false} RunKeepsLosses(cfg: Config, s: World, run: seq<Step>)
    requires LossesOk(s.requests, s.seller) && IsRun(cfg, s, run)
    ensures LossesOk(End(cfg, s, run).requests, End(cfg, s, run).seller)
    decreases |run|
  {
    hide CanStep, After, LossesOk;
    if run != [] {
      StepKeepsLosses(cfg, s, run[0]);
      RunKeepsLosses(cfg, After(cfg, s, run[0]), run[1..]);
    }
  }

  /**
   * In every run, under any mix of fault policies and however often an event is sent: an answer that is lost is a
   * 200, and no two requests of one event have theirs lost.
   */
  lemma AtMostOneAnswerIsLost(cfg: Config, clock: int, run: seq<Step>, q: nat, r: nat)
    requires IsRun(cfg, Initial(clock), run)
    requires var s := End(cfg, Initial(clock), run);
             q in s.requests && r in s.requests && s.requests[q].event.eventId == s.requests[r].event.eventId
    ensures var s := End(cfg, Initial(clock), run);
            && (IsLost(s.requests[r]) ==> s.requests[r].stage.status == OK)
            && (IsLost(s.requests[q]) && IsLost(s.requests[r]) ==> q == r)
  {
    hide IsRun, End;
    RunKeepsLosses(cfg, Initial(clock), run);
    var s := End(cfg, Initial(clock), run);
    assert IsLost(s.requests[q]) && IsLost(s.requests[r]) ==> AreBothFirst(s.requests[q], s.requests[r]);
  }
}
