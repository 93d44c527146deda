/** The completion outbox, the relay that publishes it and the source's listener, as they run on one instance. */
module CompletionRelay {
  import opened Domain
  import opened Obligations
  import opened CompletionProtocol
  import opened CompletionTheorems

  function Recorded(
    reports: map<EventId, Report>, enabled: bool, owner: InstanceId, e: Event, completedAt: int)
    : map<EventId, Report>
  {
    if enabled && e.eventId !in reports then
      reports[e.eventId := Report(Completion(e.eventId, e.sellerId, completedAt), owner, completedAt, None)]
    else reports
  }

  /** With reporting on, the delivery of an event is reported as the protocol's step does it. */
  lemma RecordIsTheStep(cfg: Config, s: World, e: Event, owner: InstanceId, completedAt: int)
    requires CanStep(cfg, s, Deliver(e, owner, completedAt))
    ensures Recorded(s.reports, true, owner, e, completedAt)
         == After(cfg, s, Deliver(e, owner, completedAt)).reports
    ensures Recorded(s.reports, false, owner, e, completedAt) == s.reports
  {
  }

  /** A new report is unsent and dated with the delivery; an earlier one of the event, and all others, stay. */
  lemma RecordTells(
    reports: map<EventId, Report>, owner: InstanceId, e: Event, completedAt: int, id: EventId)
    ensures var after := Recorded(reports, true, owner, e, completedAt);
            && after.Keys == reports.Keys + {e.eventId}
            && (id in reports ==> after[id] == reports[id])
            && (e.eventId !in reports ==>
                  after[e.eventId]
                  == Report(Completion(e.eventId, e.sellerId, completedAt), owner, completedAt, None))
  {
  }

  /**
   * A relay reads unsent reports only: its own at once, those of others when they are more than ten seconds old.
   * Reports are deleted a minute after they were sent, and unsent ones never.
   */
  lemma RelayReads(cfg: Config, s: World, step: Step, id: EventId)
    requires CanStep(cfg, s, step) && id in s.reports
    ensures step.Select? && id in step.ids ==>
          && s.reports[id].sentAt == None
          && (s.reports[id].owner == step.instance || step.now - s.reports[id].createdAt > 10_000)
    ensures id !in After(cfg, s, step).reports ==>
          step.PurgeSent? && s.reports[id].sentAt.Some? && step.now - s.reports[id].sentAt.value > 60_000
  {
    hide IsBatch, ResolveAll, ClosedBy, AfterAccept;
  }

  /** Conversely, such a report may be read by whoever asks, and such a report may be deleted. */
  lemma RelayMayRead(cfg: Config, s: World, pass: nat, instance: InstanceId, now: int, id: EventId)
    requires pass !in s.passes && id in s.reports
    ensures var due := s.reports[id].owner == instance || now - s.reports[id].createdAt > 10_000;
            s.reports[id].sentAt == None && due ==> CanStep(cfg, s, Select(pass, instance, now, {id}))
    ensures s.reports[id].sentAt.Some? && now - s.reports[id].sentAt.value > 60_000 ==>
              CanStep(cfg, s, PurgeSent({id}, now))
  {
  }

  class CompletionOutbox {
    const enabled: bool
    const owner: InstanceId
    var reports: map<EventId, Report>

    constructor (enabled: bool, owner: InstanceId)
      ensures this.enabled == enabled && this.owner == owner && reports == map[]
    {
      this.enabled, this.owner, reports := enabled, owner, map[];
    }

    /** The first report of an event stays; a second one for it is dropped. */
    method Record(e: Event, completedAt: int)
      modifies this
      ensures reports == Recorded(old(reports), enabled, owner, e, completedAt)
    {
      if !enabled { return; }
      if e.eventId !in reports {
        reports := reports[e.eventId :=
          Report(Completion(e.eventId, e.sellerId, completedAt), owner, completedAt, None)];
      }
    }
  }

  /** How one send ends: acknowledged, stored without the relay hearing of it, or not stored at all. */
  datatype Outcome = Acked | AckLost | Refused

  datatype Attempt = Attempt(id: EventId, partition: int, outcome: Outcome)

  class Broker {
    var topic: Topic

    constructor ()
      ensures topic == map[]
    {
      topic := map[];
    }
  }

  /** The rows of a pass: this instance's unsent reports and those it may take over, each once. */
  predicate IsQueried(reports: map<EventId, Report>, instance: InstanceId, now: int, batch: seq<Attempt>) {
    && (forall i :: 0 <= i < |batch| ==> batch[i].id in reports && MayRelay(reports[batch[i].id], instance, now))
    && (forall i, j :: 0 <= i < j < |batch| ==> batch[i].id != batch[j].id)
  }

  function Ids(batch: seq<Attempt>): set<EventId> {
    set attempt | attempt in batch :: attempt.id
  }

  predicate AllAcked(batch: seq<Attempt>) {
    batch == [] || (AllAcked(batch[..|batch| - 1]) && batch[|batch| - 1].outcome == Acked)
  }

  function Appended(topic: Topic, reports: map<EventId, Report>, batch: seq<Attempt>): Topic
    requires forall i :: 0 <= i < |batch| ==> batch[i].id in reports
  {
    if batch == [] then topic
    else
      var before, last := Appended(topic, reports, batch[..|batch| - 1]), batch[|batch| - 1];
      if last.outcome == Refused then before
      else before[last.partition := LogOf(before, last.partition) + [reports[last.id].completion]]
  }

  lemma NothingAppended(topic: Topic, reports: map<EventId, Report>)
    ensures Appended(topic, reports, []) == topic
  {
  }

  lemma AppendedStep(topic: Topic, reports: map<EventId, Report>, batch: seq<Attempt>)
    requires (forall i :: 0 <= i < |batch| ==> batch[i].id in reports) && batch != []
    ensures var before, last := Appended(topic, reports, batch[..|batch| - 1]), batch[|batch| - 1];
            Appended(topic, reports, batch) ==
              if last.outcome == Refused then before
              else before[last.partition := LogOf(before, last.partition) + [reports[last.id].completion]]
  {
  }

  /** Each attempt that is not refused appends its report to its partition, one after another, and nothing else. */
  lemma AppendedTells(topic: Topic, reports: map<EventId, Report>, batch: seq<Attempt>, last: Attempt, p: int)
    requires forall i :: 0 <= i < |batch| ==> batch[i].id in reports
    requires last.id in reports
    ensures Appended(topic, reports, []) == topic
    ensures var before, after := Appended(topic, reports, batch), Appended(topic, reports, batch + [last]);
            LogOf(after, p) ==
              LogOf(before, p)
              + if last.outcome != Refused && last.partition == p then [reports[last.id].completion] else []
  {
    assert (batch + [last])[..|batch|] == batch;
    hide Appended;
    AppendedStep(topic, reports, batch + [last]);
    var before := Appended(topic, reports, batch);
    assert LogOf(before, p) + [] == LogOf(before, p);
    NothingAppended(topic, reports);
  }

  /** The reports of a pass get its time, and no other report changes. */
  lemma MarkedTells(reports: map<EventId, Report>, ids: set<EventId>, sentAt: int, id: EventId)
    requires id in reports
    ensures var after, report := Marked(reports, ids, sentAt), reports[id];
            && after.Keys == reports.Keys
            && after[id] ==
                 if id in ids then Report(report.completion, report.owner, report.createdAt, Some(sentAt)) else report
  {
  }

  class Relay {
    const outbox: CompletionOutbox
    const broker: Broker
    const instance: InstanceId
    var lastPurge: int

    constructor (outbox: CompletionOutbox, broker: Broker, instance: InstanceId)
      ensures this.outbox == outbox && this.broker == broker && this.instance == instance && lastPurge == 0
    {
      this.outbox, this.broker, this.instance, lastPurge := outbox, broker, instance, 0;
    }

    /**
     * One pass over the rows the query returned. Nothing is marked unless every send of the batch was
     * acknowledged; a failed pass marks nothing and deletes nothing.
     */
    method Pass(now: int, batch: seq<Attempt>, sentAt: int, expired: set<EventId>) returns (marked: bool)
      requires IsQueried(outbox.reports, instance, now, batch)
      requires forall id :: id in expired && id in outbox.reports ==>
        outbox.reports[id].sentAt.Some? && outbox.reports[id].sentAt.value < now - KEEP_SENT_MS
      modifies this, outbox, broker
      ensures broker.topic == Appended(old(broker.topic), old(outbox.reports), batch)
      ensures marked <==> AllAcked(batch)
      ensures outbox.reports ==
        if !marked then old(outbox.reports)
        else if now - old(lastPurge) > 1000 then Marked(old(outbox.reports), Ids(batch), sentAt) - expired
        else Marked(old(outbox.reports), Ids(batch), sentAt)
      ensures lastPurge == if marked && now - old(lastPurge) > 1000 then now else old(lastPurge)
    {
      marked := true;
      for i := 0 to |batch|
        invariant outbox.reports == old(outbox.reports) && lastPurge == old(lastPurge)
        invariant broker.topic == Appended(old(broker.topic), outbox.reports, batch[..i])
        invariant marked <==> AllAcked(batch[..i])
      {
        var attempt := batch[i];
        assert batch[..i + 1][..i] == batch[..i];
        if attempt.outcome != Refused {
          var log := LogOf(broker.topic, attempt.partition) + [outbox.reports[attempt.id].completion];
          broker.topic := broker.topic[attempt.partition := log];
        }
        marked := marked && attempt.outcome == Acked;
      }
      assert batch[..|batch|] == batch;
      if !marked { return; }
      outbox.reports := Marked(outbox.reports, Ids(batch), sentAt);
      if now - lastPurge > 1000 {
        lastPurge := now;
        outbox.reports := outbox.reports - expired;
      }
    }
  }

  class CompletionListener {
    const obligations: DeliveryObligations
    // The offsets acknowledged so far.
    var acknowledged: seq<map<int, nat>>

    constructor (obligations: DeliveryObligations)
      ensures this.obligations == obligations && acknowledged == []
    {
      this.obligations, acknowledged := obligations, [];
    }

    /** Resolves the whole batch in one transaction, and only then acknowledges it. */
    method ReceiveBatch(records: seq<Completion>, upto: map<int, nat>, now: int)
      modifies this, obligations
      ensures obligations.Content() == ResolveAll(old(obligations.Content()), records, now)
      ensures acknowledged == old(acknowledged) + [upto]
    {
      for i := 0 to |records|
        invariant obligations.Content() == ResolveAll(old(obligations.Content()), records[..i], now)
        invariant acknowledged == old(acknowledged)
      {
        assert records[..i + 1][..i] == records[..i];
        var closed := obligations.Resolve(records[i].eventId, records[i].sellerId, now);
      }
      assert records[..|records|] == records;
      acknowledged := acknowledged + [upto];
    }
  }

  // ---- a pass is a run of the protocol

  function SendSteps(pass: nat, batch: seq<Attempt>): seq<Step> {
    if batch == [] then []
    else
      var last := batch[|batch| - 1];
      SendSteps(pass, batch[..|batch| - 1])
      + (if last.outcome == Refused then [] else [Step.Send(pass, last.id, last.partition, last.outcome == Acked)])
  }

  function AckedIds(batch: seq<Attempt>): set<EventId> {
    if batch == [] then {}
    else
      var before, last := AckedIds(batch[..|batch| - 1]), batch[|batch| - 1];
      if last.outcome == Acked then before + {last.id} else before
  }

  /** The state a pass has reached after some of its sends. */
  ghost predicate IsSending(s: World, t: World, pass: nat, instance: InstanceId, all: seq<Attempt>, batch: seq<Attempt>)
    requires forall i :: 0 <= i < |all| ==> all[i].id in s.reports
    requires forall i :: 0 <= i < |batch| ==> batch[i].id in s.reports
  {
    && Ids(all) <= s.reports.Keys
    && t == s.(topic := Appended(s.topic, s.reports, batch),
               passes := s.passes[pass :=
                 CompletionProtocol.Pass(instance, Selected(s.reports, Ids(all)), AckedIds(batch))])
  }

  lemma IdsAreQueried(reports: map<EventId, Report>, instance: InstanceId, now: int, batch: seq<Attempt>)
    requires IsQueried(reports, instance, now, batch)
    ensures Ids(batch) <= reports.Keys && forall id :: id in Ids(batch) ==> MayRelay(reports[id], instance, now)
  {
  }

  lemma SendAdvances(
    cfg: Config, s: World, t: World, pass: nat, instance: InstanceId, all: seq<Attempt>, batch: seq<Attempt>)
    requires forall i :: 0 <= i < |all| ==> all[i].id in s.reports
    requires batch != [] && batch <= all && batch[|batch| - 1].outcome != Refused
    requires IsSending(s, t, pass, instance, all, batch[..|batch| - 1])
    ensures var last := batch[|batch| - 1];
            var send := Step.Send(pass, last.id, last.partition, last.outcome == Acked);
            CanStep(cfg, t, send) && IsSending(s, After(cfg, t, send), pass, instance, all, batch)
  {
    var last := batch[|batch| - 1];
    assert last in all;
    assert last.id in Ids(all);
  }

  lemma RefusedChangesNothing(
    s: World, t: World, pass: nat, instance: InstanceId, all: seq<Attempt>, batch: seq<Attempt>)
    requires forall i :: 0 <= i < |all| ==> all[i].id in s.reports
    requires batch != [] && batch <= all && batch[|batch| - 1].outcome == Refused
    requires IsSending(s, t, pass, instance, all, batch[..|batch| - 1])
    ensures IsSending(s, t, pass, instance, all, batch)
  {
  }

  lemma {:induction false} SendsAreARun(
    cfg: Config, s: World, pass: nat, instance: InstanceId, now: int, all: seq<Attempt>, batch: seq<Attempt>)
    requires pass !in s.passes && IsQueried(s.reports, instance, now, all) && batch <= all
    ensures var run := [Select(pass, instance, now, Ids(all))] + SendSteps(pass, batch);
            IsRun(cfg, s, run) && IsSending(s, End(cfg, s, run), pass, instance, all, batch)
  {
    var select := Select(pass, instance, now, Ids(all));
    IdsAreQueried(s.reports, instance, now, all);
    if batch == [] {
      assert [select] + [] == [select];
      OneStep(cfg, s, select);
    } else {
      var n := |batch| - 1;
      var before, last := [select] + SendSteps(pass, batch[..n]), batch[n];
      SendsAreARun(cfg, s, pass, instance, now, all, batch[..n]);
      var t := End(cfg, s, before);
      if last.outcome == Refused {
        assert [select] + SendSteps(pass, batch) == before;
        RefusedChangesNothing(s, t, pass, instance, all, batch);
      } else {
        SendAdvances(cfg, s, t, pass, instance, all, batch);
        hide IsSending, IsRun, End, CanStep, After, Appended;
        var send := Step.Send(pass, last.id, last.partition, last.outcome == Acked);
        OneStep(cfg, t, send);
        RunsJoin(cfg, s, before, [send]);
        assert [select] + SendSteps(pass, batch) == before + [send];
      }
    }
  }

  lemma {:induction false} AckedAreIds(batch: seq<Attempt>)
    ensures AckedIds(batch) <= Ids(batch)
    ensures AllAcked(batch) ==> AckedIds(batch) == Ids(batch)
  {
    if batch != [] {
      var n := |batch| - 1;
      AckedAreIds(batch[..n]);
      assert batch == batch[..n] + [batch[n]];
      assert Ids(batch) == Ids(batch[..n]) + {batch[n].id};
    }
  }

  /** A relay pass does to the topic and the outbox what a run of the protocol does: select, send, and mark or drop. */
  lemma PassIsARun(
    cfg: Config, s: World, pass: nat, instance: InstanceId, now: int, batch: seq<Attempt>, sentAt: int)
    returns (run: seq<Step>)
    requires pass !in s.passes && IsQueried(s.reports, instance, now, batch)
    ensures IsRun(cfg, s, run)
    ensures End(cfg, s, run).topic == Appended(s.topic, s.reports, batch)
    ensures End(cfg, s, run).reports == if AllAcked(batch) then Marked(s.reports, Ids(batch), sentAt) else s.reports
    ensures End(cfg, s, run).book == s.book && End(cfg, s, run).effects == s.effects
  {
    var sends := [Select(pass, instance, now, Ids(batch))] + SendSteps(pass, batch);
    SendsAreARun(cfg, s, pass, instance, now, batch, batch);
    AckedAreIds(batch);
    var t := End(cfg, s, sends);
    var last := if AllAcked(batch) then MarkSent(pass, sentAt) else DropPass(pass);
    hide IsRun, End;
    OneStep(cfg, t, last);
    RunsJoin(cfg, s, sends, [last]);
    run := sends + [last];
  }
}
