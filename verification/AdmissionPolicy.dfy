/**
 * Local admission of work to the worker pool, and the proof that whatever it admits the offline
 * sweep measures within the configured limits.
 */
module AdmissionControl {
  import opened Domain
  import opened RollingBudget
  import opened Sweep
  import opened WindowPeak

  // ---- what an admission policy did, as a trace

  datatype Op =
    | Admit(key: OrderKey, at: int, limited: bool, retry: bool)
    | Release(key: OrderKey, at: int)

  type Trace = seq<Op>

  /** The orders with an operation running after the trace. */
  function Running(trace: Trace): set<OrderKey> {
    if trace == [] then {}
    else
      var before := Running(trace[..|trace| - 1]);
      match trace[|trace| - 1]
      case Admit(key, _, _, _) => before + {key}
      case Release(key, _) => before - {key}
  }

  function RunningOf(trace: Trace, sellerId: SellerId): set<OrderKey> {
    set key | key in Running(trace) && key.sellerId == sellerId
  }

  /** When the retries of a seller were admitted under the seller limits. */
  function RetriesOf(trace: Trace, sellerId: SellerId): seq<int> {
    if trace == [] then []
    else
      var before, op := RetriesOf(trace[..|trace| - 1], sellerId), trace[|trace| - 1];
      if op.Admit? && op.limited && op.retry && op.key.sellerId == sellerId then before + [op.at] else before
  }

  function LastTime(trace: Trace): int {
    if trace == [] then 0 else trace[|trace| - 1].at
  }

  /** Every admission found a free worker, an idle order and, when seller limits apply, a seller below its cap. */
  predicate Lawful(trace: Trace, workers: int, sellerConcurrency: int) {
    trace == [] ||
    var before := trace[..|trace| - 1];
    && Lawful(before, workers, sellerConcurrency)
    && (before != [] ==> LastTime(before) <= trace[|trace| - 1].at)
    && match trace[|trace| - 1]
       case Admit(key, _, limited, _) =>
         && key !in Running(before) && |Running(before)| < workers
         && (limited ==> |RunningOf(before, key.sellerId)| < sellerConcurrency)
       case Release(key, _) => key in Running(before)
  }

  // ---- the trace as intervals

  /** One admitted operation; it has no end while it is running. */
  datatype Call = Call(key: OrderKey, start: int, end: Option<int>)

  function Close(calls: seq<Call>, key: OrderKey, at: int): seq<Call> {
    if calls == [] then []
    else
      var last := calls[|calls| - 1];
      Close(calls[..|calls| - 1], key, at)
        + [if last.key == key && last.end == None then last.(end := Some(at)) else last]
  }

  function Calls(trace: Trace): seq<Call> {
    if trace == [] then []
    else
      var before := Calls(trace[..|trace| - 1]);
      match trace[|trace| - 1]
      case Admit(key, at, _, _) => before + [Call(key, at, None)]
      case Release(key, at) => Close(before, key, at)
  }

  /** Which calls a peak is taken over. */
  datatype Group = Everything | OfOrder(key: OrderKey) | OfSeller(sellerId: SellerId) {
    predicate Has(k: OrderKey) {
      match this
      case Everything => true
      case OfOrder(key) => k == key
      case OfSeller(sellerId) => k.sellerId == sellerId
    }
  }

  /** The calls of a group as intervals, those still running ending where the observation ends. */
  function Intervals(calls: seq<Call>, group: Group, observed: int): seq<Interval> {
    if calls == [] then []
    else
      var rest, last := Intervals(calls[..|calls| - 1], group, observed), calls[|calls| - 1];
      if group.Has(last.key) then rest + [Interval(last.start, if last.end.Some? then last.end.value else observed)]
      else rest
  }

  function StillOpen(calls: seq<Call>, group: Group): nat {
    if calls == [] then 0
    else StillOpen(calls[..|calls| - 1], group)
         + (if group.Has(calls[|calls| - 1].key) && calls[|calls| - 1].end == None then 1 else 0)
  }

  function RunningIn(trace: Trace, group: Group): set<OrderKey> {
    set key | key in Running(trace) && group.Has(key)
  }

  /** The bound that admission promises for a group. */
  function Limit(group: Group, workers: int, sellerConcurrency: int): int {
    match group
    case Everything => workers
    case OfOrder(_) => 1
    case OfSeller(_) => sellerConcurrency
  }

  predicate IsUncapped(op: Op, sellerId: SellerId) {
    op.Admit? && op.key.sellerId == sellerId && !op.limited
  }

  /** All admissions of the group's seller were made under the seller limits. */
  predicate Capped(trace: Trace, group: Group) {
    group.OfSeller? ==> forall i :: 0 <= i < |trace| ==> !IsUncapped(trace[i], group.sellerId)
  }

  // ---- counting

  lemma {:induction false} CloseCounts(calls: seq<Call>, key: OrderKey, at: int, group: Group)
    ensures |Close(calls, key, at)| == |calls|
    ensures StillOpen(Close(calls, key, at), group)
          == StillOpen(calls, group) - (if group.Has(key) then StillOpen(calls, OfOrder(key)) else 0)
    ensures group.Has(key) ==> StillOpen(calls, OfOrder(key)) <= StillOpen(calls, group)
  {
    if calls != [] {
      var n := |calls| - 1;
      CloseCounts(calls[..n], key, at, group);
      assert Close(calls, key, at)[..n] == Close(calls[..n], key, at);
    }
  }

  lemma AppendCall(calls: seq<Call>, c: Call, group: Group)
    ensures StillOpen(calls + [c], group)
          == StillOpen(calls, group) + (if group.Has(c.key) && c.end == None then 1 else 0)
  {
    assert (calls + [c])[..|calls|] == calls;
  }

  lemma AdmitRuns(trace: Trace, group: Group)
    requires trace != [] && trace[|trace| - 1].Admit?
    ensures var before, key := trace[..|trace| - 1], trace[|trace| - 1].key;
            RunningIn(trace, group)
              == if group.Has(key) then RunningIn(before, group) + {key} else RunningIn(before, group)
  {
  }

  lemma ReleaseStops(trace: Trace, group: Group)
    requires trace != [] && trace[|trace| - 1].Release?
    ensures var before, key := trace[..|trace| - 1], trace[|trace| - 1].key;
            RunningIn(trace, group)
              == if group.Has(key) then RunningIn(before, group) - {key} else RunningIn(before, group)
  {
  }

  lemma OrderRunsAlone(trace: Trace, key: OrderKey)
    ensures RunningIn(trace, OfOrder(key)) == if key in Running(trace) then {key} else {}
  {
  }

  lemma NothingRuns(group: Group)
    ensures StillOpen(Calls([]), group) == 0 && RunningIn([], group) == {}
  {
  }

  lemma KeyRuns(trace: Trace, key: OrderKey, group: Group)
    ensures key in RunningIn(trace, group) <==> key in Running(trace) && group.Has(key)
  {
  }

  /** The calls still open are the orders still running. */
  lemma {:induction false} OpenAreRunning(trace: Trace, workers: int, sellerConcurrency: int, group: Group)
    requires Lawful(trace, workers, sellerConcurrency)
    ensures StillOpen(Calls(trace), group) == |RunningIn(trace, group)|
  {
    hide RunningIn, StillOpen, Close;
    if trace == [] {
      NothingRuns(group);
    } else {
      var before, op := trace[..|trace| - 1], trace[|trace| - 1];
      OpenAreRunning(before, workers, sellerConcurrency, group);
      KeyRuns(before, op.key, group);
      match op
      case Admit(key, at, _, _) =>
        AppendCall(Calls(before), Call(key, at, None), group);
        AdmitRuns(trace, group);
      case Release(key, at) =>
        OpenAreRunning(before, workers, sellerConcurrency, OfOrder(key));
        OrderRunsAlone(before, key);
        CloseCounts(Calls(before), key, at, group);
        ReleaseStops(trace, group);
    }
  }

  lemma GroupsAre(trace: Trace, group: Group)
    ensures group.Everything? ==> RunningIn(trace, group) == Running(trace)
    ensures group.OfSeller? ==> RunningIn(trace, group) == RunningOf(trace, group.sellerId)
  {
  }

  /** At every moment of a lawful trace the running operations of a group respect its limit. */
  lemma {:induction false} RunningWithinLimit(trace: Trace, workers: int, sellerConcurrency: int, group: Group)
    requires Lawful(trace, workers, sellerConcurrency) && Capped(trace, group) && workers >= 0 && sellerConcurrency >= 0
    ensures |RunningIn(trace, group)| <= Limit(group, workers, sellerConcurrency)
  {
    hide RunningIn, RunningOf, Running;
    if trace == [] {
      NothingRuns(group);
    } else {
      var before, op := trace[..|trace| - 1], trace[|trace| - 1];
      assert Capped(before, group) by {
        assert forall i :: 0 <= i < |before| ==> before[i] == trace[i];
      }
      RunningWithinLimit(before, workers, sellerConcurrency, group);
      GroupsAre(before, group);
      assert group.OfSeller? ==> !IsUncapped(op, group.sellerId);
      if group.OfOrder? {
        OrderRunsAlone(trace, group.key);
      } else if op.Admit? {
        AdmitRuns(trace, group);
      } else {
        ReleaseStops(trace, group);
        SubsetIsSmaller(RunningIn(before, group) - {op.key}, RunningIn(before, group));
      }
    }
  }

  // ---- the sweep over the trace

  lemma NoCalls(trace: Trace)
    ensures trace == [] ==> Calls(trace) == []
  {
  }

  lemma {:induction false} CloseKeeps(calls: seq<Call>, key: OrderKey, at: int)
    ensures forall c :: c in Close(calls, key, at) ==>
          c in calls || (c.end == Some(at) && Call(c.key, c.start, None) in calls)
  {
    if calls != [] {
      var n := |calls| - 1;
      CloseKeeps(calls[..n], key, at);
      assert calls == calls[..n] + [calls[n]];
    }
  }

  lemma {:induction false} CallsEndInThePast(trace: Trace, workers: int, sellerConcurrency: int)
    requires Lawful(trace, workers, sellerConcurrency)
    ensures forall c :: c in Calls(trace) ==>
          c.start <= LastTime(trace) && (c.end.Some? ==> c.start <= c.end.value <= LastTime(trace))
  {
    if trace != [] {
      var before, op := trace[..|trace| - 1], trace[|trace| - 1];
      CallsEndInThePast(before, workers, sellerConcurrency);
      if op.Release? {
        CloseKeeps(Calls(before), op.key, op.at);
      }
      NoCalls(before);
    }
  }

  lemma AppendInterval(calls: seq<Call>, group: Group, observed: int, t: int)
    requires calls != []
    ensures var last := calls[|calls| - 1];
            Open(Intervals(calls, group, observed), t) == Open(Intervals(calls[..|calls| - 1], group, observed), t)
              + (if group.Has(last.key) && last.start <= t < (if last.end.Some? then last.end.value else observed)
                then 1 else 0)
  {
    var rest, last := Intervals(calls[..|calls| - 1], group, observed), calls[|calls| - 1];
    if group.Has(last.key) {
      var i := Interval(last.start, if last.end.Some? then last.end.value else observed);
      assert Intervals(calls, group, observed) == rest + [i];
      assert (rest + [i])[..|rest|] == rest;
    }
  }

  /** Closing calls at an instant changes nothing before it. */
  lemma {:induction false} CloseKeepsThePast(
    calls: seq<Call>, key: OrderKey, at: int, group: Group, observed: int, t: int)
    requires t < at <= observed
    ensures Open(Intervals(Close(calls, key, at), group, observed), t) == Open(Intervals(calls, group, observed), t)
  {
    if calls != [] {
      var n := |calls| - 1;
      CloseKeepsThePast(calls[..n], key, at, group, observed, t);
      CloseCounts(calls, key, at, group);
      assert Close(calls, key, at)[..n] == Close(calls[..n], key, at);
      AppendInterval(calls, group, observed, t);
      AppendInterval(Close(calls, key, at), group, observed, t);
    }
  }

  /** After the last operation, only calls without an end are open. */
  lemma {:induction false} OnlyRunningAfterwards(calls: seq<Call>, group: Group, observed: int, t: int)
    requires forall c :: c in calls && c.end.Some? ==> c.end.value <= t
    ensures Open(Intervals(calls, group, observed), t) <= StillOpen(calls, group)
  {
    if calls != [] {
      var n := |calls| - 1;
      assert calls == calls[..n] + [calls[n]];
      OnlyRunningAfterwards(calls[..n], group, observed, t);
      AppendInterval(calls, group, observed, t);
    }
  }

  lemma {:induction false} OpenWithinLimit(
    trace: Trace, workers: int, sellerConcurrency: int, group: Group, observed: int, t: int)
    requires Lawful(trace, workers, sellerConcurrency) && Capped(trace, group) && workers >= 0 && sellerConcurrency >= 0
    requires trace != [] ==> LastTime(trace) <= observed
    ensures Open(Intervals(Calls(trace), group, observed), t) <= Limit(group, workers, sellerConcurrency)
  {
    if trace != [] {
      var before, op := trace[..|trace| - 1], trace[|trace| - 1];
      if t >= op.at {
        CallsEndInThePast(trace, workers, sellerConcurrency);
        OnlyRunningAfterwards(Calls(trace), group, observed, t);
        OpenAreRunning(trace, workers, sellerConcurrency, group);
        RunningWithinLimit(trace, workers, sellerConcurrency, group);
      } else {
        assert Capped(before, group) by {
          assert forall i :: 0 <= i < |before| ==> before[i] == trace[i];
        }
        OpenWithinLimit(before, workers, sellerConcurrency, group, observed, t);
        match op
        case Admit(key, at, _, _) =>
          AppendInterval(Calls(trace), group, observed, t);
          assert Calls(trace)[..|Calls(before)|] == Calls(before);
        case Release(key, at) =>
          CloseKeepsThePast(Calls(before), key, at, group, observed, t);
      }
    }
  }

  lemma {:induction false} IntervalsRunForward(calls: seq<Call>, group: Group, observed: int)
    requires forall c :: c in calls ==> c.start <= observed && (c.end.Some? ==> c.start <= c.end.value)
    ensures Forward(Intervals(calls, group, observed))
  {
    if calls != [] {
      var n := |calls| - 1;
      assert calls == calls[..n] + [calls[n]];
      IntervalsRunForward(calls[..n], group, observed);
    }
  }

  /**
   * The peak the offline sweep finds in any trace of the policy: at most the worker count in total,
   * one per order, and the seller's cap per seller whose admissions were all capped.
   */
  lemma PolicyPassesTheSweep(trace: Trace, workers: int, sellerConcurrency: int, group: Group, observed: int, peak: int)
    requires Lawful(trace, workers, sellerConcurrency) && Capped(trace, group) && workers >= 0 && sellerConcurrency >= 0
    requires trace != [] ==> LastTime(trace) <= observed
    ensures Forward(Intervals(Calls(trace), group, observed))
    ensures IsPeak(Intervals(Calls(trace), group, observed), peak) ==> peak <= Limit(group, workers, sellerConcurrency)
  {
    CallsEndInThePast(trace, workers, sellerConcurrency);
    NoCalls(trace);
    IntervalsRunForward(Calls(trace), group, observed);
    if IsPeak(Intervals(Calls(trace), group, observed), peak) && peak > 0 {
      var t :| Open(Intervals(Calls(trace), group, observed), t) == peak;
      OpenWithinLimit(trace, workers, sellerConcurrency, group, observed, t);
    }
  }

  // ---- the policy

  datatype Reason = ADMITTED | GLOBAL_FULL | ORDER_BUSY | SELLER_FULL | NOT_DUE | FINISHED | RETRY_BUDGET

  datatype Admission = Admission(admitted: bool, retry: bool, at: int, reason: Reason)

  datatype Task = Task(eventId: EventId, key: OrderKey, attempts: nat, nextAt: int)

  datatype Settings = Settings(workers: int, sellerConcurrency: int, retryBudget: int, retryWindowMs: int,
    finishedLimit: int)

  predicate Remembers(finished: seq<EventId>, eventId: EventId) {
    exists i :: 0 <= i < |finished| && finished[i] == eventId
  }

  /** What admission must answer, told from what happened so far rather than from any counter. */
  ghost function Answer(
    trace: Trace, finished: seq<EventId>, task: Task, sellerLimits: bool, now: int, s: Settings): Reason
  {
    var seller := task.key.sellerId;
    if |Running(trace)| >= s.workers then GLOBAL_FULL
    else if task.key in Running(trace) then ORDER_BUSY
    else if sellerLimits && |RunningOf(trace, seller)| >= s.sellerConcurrency then SELLER_FULL
    else if task.nextAt > now then NOT_DUE
    else if Remembers(finished, task.eventId) then FINISHED
    else if sellerLimits && task.attempts > 0
      && CountIn(RetriesOf(trace, seller), now - s.retryWindowMs + 1, now) >= s.retryBudget then
      RETRY_BUDGET
    else ADMITTED
  }

  /** What each answer says of the operations running, the events finished and the retries spent. */
  lemma AnswerTells(trace: Trace, finished: seq<EventId>, task: Task, sellerLimits: bool, now: int, s: Settings)
    ensures var answer := Answer(trace, finished, task, sellerLimits, now, s);
            var same := set key | key in Running(trace) && key.sellerId == task.key.sellerId;
            var full, busy := |Running(trace)| >= s.workers, task.key in Running(trace);
            var capped, early := sellerLimits && |same| >= s.sellerConcurrency, task.nextAt > now;
            var done := exists i :: 0 <= i < |finished| && finished[i] == task.eventId;
            var spent := CountIn(RetriesOf(trace, task.key.sellerId), now - s.retryWindowMs + 1, now);
            var broke := sellerLimits && task.attempts > 0 && spent >= s.retryBudget;
            && (answer == GLOBAL_FULL <==> full)
            && (answer == ORDER_BUSY <==> !full && busy)
            && (answer == SELLER_FULL <==> !full && !busy && capped)
            && (answer == NOT_DUE <==> !full && !busy && !capped && early)
            && (answer == FINISHED <==> !full && !busy && !capped && !early && done)
            && (answer == RETRY_BUDGET <==> !full && !busy && !capped && !early && !done && broke)
            && (answer == ADMITTED <==> !full && !busy && !capped && !early && !done && !broke)
  {
    assert RunningOf(trace, task.key.sellerId)
        == set key | key in Running(trace) && key.sellerId == task.key.sellerId;
    hide Running, RunningOf, RetriesOf, CountIn;
  }

  /** The finished events after one more: each once, oldest first, and never more than the limit. */
  function Remember(finished: seq<EventId>, eventId: EventId, limit: int): seq<EventId> {
    var all := if Remembers(finished, eventId) then finished else finished + [eventId];
    if |all| > limit then all[1..] else all
  }

  lemma RememberedIsSome(finished: seq<EventId>, eventId: EventId)
    ensures Remembers(finished, eventId) ==> finished != []
  {
  }

  function Load(m: map<SellerId, int>, sellerId: SellerId): int {
    if sellerId in m then m[sellerId] else 0
  }

  /** The counters and the spent retry units are those of the trace. */
  ghost predicate Agrees(
    trace: Trace, active: int, keys: set<OrderKey>, sellers: map<SellerId, int>, grants: map<SellerId, seq<int>>,
    s: Settings)
  {
    && Lawful(trace, s.workers, s.sellerConcurrency)
    && active == |keys| && keys == Running(trace)
    && (forall id :: Load(sellers, id) == |RunningOf(trace, id)|)
    && (forall id :: Get(grants, id) == RetriesOf(trace, id))
  }

  /** What the counters answer is what the trace answers. */
  lemma CountersAnswer(
    trace: Trace, active: int, keys: set<OrderKey>, sellers: map<SellerId, int>, grants: map<SellerId, seq<int>>,
    s: Settings, finished: seq<EventId>, task: Task, sellerLimits: bool, now: int)
    requires Agrees(trace, active, keys, sellers, grants, s)
    ensures var seller := task.key.sellerId;
            Answer(trace, finished, task, sellerLimits, now, s) ==
              if active >= s.workers then GLOBAL_FULL
              else if task.key in keys then ORDER_BUSY
              else if sellerLimits && Load(sellers, seller) >= s.sellerConcurrency then SELLER_FULL
              else if task.nextAt > now then NOT_DUE
              else if Remembers(finished, task.eventId) then FINISHED
              else if sellerLimits && task.attempts > 0
                   && CountIn(Get(grants, seller), now - s.retryWindowMs + 1, now) >= s.retryBudget then RETRY_BUDGET
              else ADMITTED
  {
  }

  lemma AdmitIsLawful(trace: Trace, op: Op, s: Settings)
    requires Lawful(trace, s.workers, s.sellerConcurrency) && op.Admit?
    requires op.key !in Running(trace) && |Running(trace)| < s.workers && (trace != [] ==> LastTime(trace) <= op.at)
    requires op.limited ==> |RunningOf(trace, op.key.sellerId)| < s.sellerConcurrency
    ensures Lawful(trace + [op], s.workers, s.sellerConcurrency)
  {
    hide Running, RunningOf;
    assert (trace + [op])[..|trace|] == trace;
  }

  lemma SellerRuns(trace: Trace, op: Op, s: SellerId)
    requires Running(trace + [op]) == if op.Admit? then Running(trace) + {op.key} else Running(trace) - {op.key}
    ensures RunningOf(trace + [op], s) ==
      if s != op.key.sellerId then RunningOf(trace, s)
      else if op.Admit? then RunningOf(trace, s) + {op.key} else RunningOf(trace, s) - {op.key}
    ensures op.key.sellerId == s ==> (op.key in RunningOf(trace, s) <==> op.key in Running(trace))
  {
    hide Running;
  }

  lemma OneMoreOp(trace: Trace, op: Op)
    ensures Running(trace + [op]) == if op.Admit? then Running(trace) + {op.key} else Running(trace) - {op.key}
    ensures forall s ::
          RetriesOf(trace + [op], s)
          == RetriesOf(trace, s) + (if op.Admit? && op.limited && op.retry && s == op.key.sellerId then [op.at] else [])
  {
    assert (trace + [op])[..|trace|] == trace;
    hide Running;
  }

  lemma AfterAdmit(trace: Trace, op: Op)
    requires op.Admit? && op.key !in Running(trace)
    ensures Running(trace + [op]) == Running(trace) + {op.key}
    ensures forall s :: |RunningOf(trace + [op], s)| == |RunningOf(trace, s)| + (if s == op.key.sellerId then 1 else 0)
    ensures forall s ::
          RetriesOf(trace + [op], s)
          == RetriesOf(trace, s) + (if op.limited && op.retry && s == op.key.sellerId then [op.at] else [])
  {
    hide Running, RunningOf, RetriesOf;
    OneMoreOp(trace, op);
    forall s
      ensures |RunningOf(trace + [op], s)| == |RunningOf(trace, s)| + (if s == op.key.sellerId then 1 else 0)
    {
      SellerRuns(trace, op, s);
    }
  }

  lemma AdmitAgrees(
    trace: Trace, active: int, keys: set<OrderKey>, sellers: map<SellerId, int>, grants: map<SellerId, seq<int>>,
    s: Settings, op: Op)
    requires Agrees(trace, active, keys, sellers, grants, s) && op.Admit?
    requires op.key !in keys && active < s.workers && (trace != [] ==> LastTime(trace) <= op.at)
    requires op.limited ==> Load(sellers, op.key.sellerId) < s.sellerConcurrency
    ensures var id := op.key.sellerId;
            Agrees(trace + [op], active + 1, keys + {op.key}, sellers[id := Load(sellers, id) + 1],
                   if op.limited && op.retry then grants[id := Get(grants, id) + [op.at]] else grants, s)
  {
    hide Running, RunningOf, RetriesOf;
    AfterAdmit(trace, op);
    AdmitIsLawful(trace, op, s);
    hide Lawful;
  }

  lemma AfterRelease(trace: Trace, op: Op)
    requires op.Release? && op.key in Running(trace)
    ensures Running(trace + [op]) == Running(trace) - {op.key}
    ensures forall s :: |RunningOf(trace + [op], s)| == |RunningOf(trace, s)| - (if s == op.key.sellerId then 1 else 0)
    ensures forall s :: RetriesOf(trace + [op], s) == RetriesOf(trace, s)
  {
    hide Running, RunningOf, RetriesOf;
    OneMoreOp(trace, op);
    forall s
      ensures |RunningOf(trace + [op], s)| == |RunningOf(trace, s)| - (if s == op.key.sellerId then 1 else 0)
    {
      SellerRuns(trace, op, s);
    }
    forall s
      ensures RetriesOf(trace + [op], s) == RetriesOf(trace, s)
    {
      assert RetriesOf(trace, s) + [] == RetriesOf(trace, s);
    }
  }

  lemma ReleaseAgrees(
    trace: Trace, active: int, keys: set<OrderKey>, sellers: map<SellerId, int>, grants: map<SellerId, seq<int>>,
    s: Settings, op: Op)
    requires Agrees(trace, active, keys, sellers, grants, s) && op.Release? && op.key in Running(trace)
    requires LastTime(trace) <= op.at
    ensures var id := op.key.sellerId;
            Agrees(trace + [op], active - 1, keys - {op.key}, sellers[id := Load(sellers, id) - 1], grants, s)
  {
    AfterRelease(trace, op);
    assert (trace + [op])[..|trace|] == trace;
  }

  class AdmissionPolicy {
    const settings: Settings
    const retryBudget: RollingWindowBudget
    var active: int
    var activeKeys: set<OrderKey>
    var activeSellers: map<SellerId, int>
    var finished: seq<EventId>
    // What the policy has done so far.
    ghost var trace: Trace

    ghost predicate Valid()
      reads this, retryBudget
    {
      && retryBudget.Valid() && retryBudget.limit == settings.retryBudget
      && retryBudget.windowMs == settings.retryWindowMs
      && Agrees(trace, active, activeKeys, activeSellers, retryBudget.grants, settings)
    }

    constructor (settings: Settings, ghost now: int)
      ensures Valid() && fresh(retryBudget) && trace == [] && finished == [] && this.settings == settings
      ensures retryBudget.clock == now
    {
      this.settings := settings;
      retryBudget := new RollingWindowBudget(settings.retryBudget, settings.retryWindowMs, now);
      active := 0;
      activeKeys := {};
      activeSellers := map[];
      finished := [];
      trace := [];
    }

    /**
     * Admits exactly when the answer told from the trace is to admit; a refusal changes nothing, so in
     * particular only an admission that succeeds spends a unit of the retry budget.
     */
    method TryAdmit(task: Task, sellerLimits: bool, now: int) returns (r: Admission)
      requires Valid() && retryBudget.clock <= now && (trace != [] ==> LastTime(trace) <= now)
      modifies this, retryBudget
      ensures Valid() && retryBudget.clock <= now && finished == old(finished)
      ensures r.reason == Answer(old(trace), finished, task, sellerLimits, now, settings)
      ensures r.admitted <==> r.reason == ADMITTED
      ensures r.admitted ==> r.at == now && (r.retry <==> task.attempts > 0)
      ensures trace
            == if r.admitted then old(trace) + [Admit(task.key, now, sellerLimits, task.attempts > 0)] else old(trace)
    {
      hide Agrees, Answer, RunningOf, Running, RetriesOf, Lawful;
      var seller := task.key.sellerId;
      CountersAnswer(trace, active, activeKeys, activeSellers, retryBudget.grants, settings, finished, task,
        sellerLimits, now);
      if active >= settings.workers { return Admission(false, false, 0, GLOBAL_FULL); }
      if task.key in activeKeys { return Admission(false, false, 0, ORDER_BUSY); }
      if sellerLimits && Load(activeSellers, seller) >= settings.sellerConcurrency {
        return Admission(false, false, 0, SELLER_FULL);
      }
      if task.nextAt > now { return Admission(false, false, 0, NOT_DUE); }
      if Remembers(finished, task.eventId) { return Admission(false, false, 0, FINISHED); }
      var retry := task.attempts > 0;
      if sellerLimits && retry {
        var granted := retryBudget.TryAcquire(seller, now);
        if !granted { return Admission(false, false, 0, RETRY_BUDGET); }
      }
      ghost var op := Admit(task.key, now, sellerLimits, retry);
      AdmitAgrees(trace, active, activeKeys, activeSellers, old(retryBudget.grants), settings, op);
      active := active + 1;
      activeKeys := activeKeys + {task.key};
      activeSellers := activeSellers[seller := Load(activeSellers, seller) + 1];
      trace := trace + [op];
      r := Admission(true, retry, now, ADMITTED);
    }

    method MarkFinished(eventId: EventId)
      requires Valid()
      modifies this`finished
      ensures Valid() && finished == Remember(old(finished), eventId, settings.finishedLimit)
    {
      hide Agrees;
      RememberedIsSome(finished, eventId);
      hide Remembers;
      if !Remembers(finished, eventId) {
        finished := finished + [eventId];
      }
      if |finished| > settings.finishedLimit {
        finished := finished[1..];
      }
    }

    /** Ends an operation that was admitted; callers release what they admitted, once. */
    method Release(task: Task, ghost now: int)
      requires Valid() && task.key in Running(trace) && LastTime(trace) <= now
      modifies this
      ensures Valid() && finished == old(finished)
      ensures trace == old(trace) + [Op.Release(task.key, now)]
    {
      ghost var op := Op.Release(task.key, now);
      hide Agrees;
      ReleaseAgrees(trace, active, activeKeys, activeSellers, retryBudget.grants, settings, op);
      active := active - 1;
      activeKeys := activeKeys - {task.key};
      activeSellers := activeSellers[task.key.sellerId := Load(activeSellers, task.key.sellerId) - 1];
      trace := trace + [op];
    }
  }

  /**
   * Under the seller limits no window of any seller ever sees more retries than the budget, and the
   * offline measure with a window one millisecond shorter finds no more on any clock.
   */
  lemma PolicyKeepsRetryBudget(policy: AdmissionPolicy, sellerId: SellerId, best: int)
    requires policy.Valid() && policy.settings.retryWindowMs > 0
    ensures var times, s := RetriesOf(policy.trace, sellerId), policy.settings;
            && WithinBudget(times, s.retryWindowMs, Max(s.retryBudget, 0))
            && (IsWindowPeak(times, s.retryWindowMs - 1, best) ==> best <= Max(s.retryBudget, 0))
  {
    var budget, times, s := policy.retryBudget, RetriesOf(policy.trace, sellerId), policy.settings;
    assert IsSound(Get(budget.grants, sellerId), Get(budget.usage, sellerId), budget.windowMs, budget.limit,
      budget.clock);
    if IsWindowPeak(times, s.retryWindowMs - 1, best) {
      ShorterWindowIsSafe(times, s.retryWindowMs - 1, best, Max(s.retryBudget, 0));
    }
  }

  function AllRemembered(finished: seq<EventId>, later: seq<EventId>, limit: int): seq<EventId>
    decreases |later|
  {
    if later == [] then finished else AllRemembered(Remember(finished, later[0], limit), later[1..], limit)
  }

  lemma {:induction false} StaysRemembered(finished: seq<EventId>, at: nat, later: seq<EventId>, limit: int)
    requires at < |finished| <= limit && |later| <= at + limit - |finished|
    ensures Remembers(AllRemembered(finished, later, limit), finished[at])
    decreases |later|
  {
    if later != [] {
      var next := Remember(finished, later[0], limit);
      if Remembers(finished, later[0]) {
        StaysRemembered(finished, at, later[1..], limit);
      } else {
        StaysRemembered(next, if |finished| < limit then at else at - 1, later[1..], limit);
      }
    }
  }

  predicate AreDistinct(events: seq<EventId>) {
    forall i, j :: 0 <= i < j < |events| ==> events[i] != events[j]
  }

  /** The last of them, as many as the limit. */
  function Latest(events: seq<EventId>, limit: int): seq<EventId> {
    if |events| > limit then events[|events| - Max(limit, 0)..] else events
  }

  lemma NewIsRemembered(finished: seq<EventId>, later: seq<EventId>, limit: int)
    requires |finished| <= limit && later != [] && AreDistinct(finished + later)
    ensures var next := Remember(finished, later[0], limit);
            && |next| <= limit && AreDistinct(next + later[1..])
            && Latest(next + later[1..], limit) == Latest(finished + later, limit)
  {
    var all, next := finished + later, Remember(finished, later[0], limit);
    assert all[|finished|] == later[0];
    assert forall i :: 0 <= i < |finished| ==> all[i] == finished[i];
    assert finished + [later[0]] + later[1..] == all;
    assert next + later[1..] == if |finished| < limit then all else all[1..];
  }

  /** Of distinct events that finish one after another, the latest are remembered, as many as the limit. */
  lemma {:induction false} LatestAreRemembered(finished: seq<EventId>, later: seq<EventId>, limit: int)
    requires |finished| <= limit && AreDistinct(finished + later)
    ensures AllRemembered(finished, later, limit) == Latest(finished + later, limit)
    decreases |later|
  {
    if later == [] {
      assert finished + later == finished;
    } else {
      hide AreDistinct, Latest, Remember;
      NewIsRemembered(finished, later, limit);
      LatestAreRemembered(Remember(finished, later[0], limit), later[1..], limit);
    }
  }

  /** An event that finishes again keeps its place. */
  lemma RepeatedKeepsItsPlace(finished: seq<EventId>, eventId: EventId, limit: int)
    requires |finished| <= limit && exists i :: 0 <= i < |finished| && finished[i] == eventId
    ensures Remember(finished, eventId, limit) == finished
  {
  }

  /** The last finished events are refused: an event is forgotten only after as many others as the limit. */
  lemma {:induction false} FinishedIsRemembered(
    finished: seq<EventId>, eventId: EventId, later: seq<EventId>, limit: int)
    requires |finished| <= limit && |later| < limit && !Remembers(finished, eventId)
    ensures Remembers(AllRemembered(Remember(finished, eventId, limit), later, limit), eventId)
  {
    var all := Remember(finished, eventId, limit);
    assert all[|all| - 1] == eventId;
    StaysRemembered(all, |all| - 1, later, limit);
  }
}
