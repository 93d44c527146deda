/** What every reachable state of the completion channel satisfies, and that every report gets through. */
module CompletionTheorems {
  import opened Domain
  import opened Obligations
  import opened CompletionProtocol
  import opened QuotaTheorems

  // ---- the invariant

  /** A completion tells of a recorded delivery. */
  predicate Tells(effects: map<EventId, Event>, c: Completion) {
    c.eventId in effects && effects[c.eventId].sellerId == c.sellerId
  }

  ghost predicate InTopic(topic: Topic, id: EventId) {
    exists p, o :: p in topic && 0 <= o < |topic[p]| && topic[p][o].eventId == id
  }

  ghost predicate ReportsOk(effects: map<EventId, Event>, reports: map<EventId, Report>, topic: Topic) {
    && (forall id :: id in reports ==> reports[id].completion.eventId == id && Tells(effects, reports[id].completion))
    && (forall id :: id in reports && reports[id].sentAt.Some? ==> InTopic(topic, id))
    && (forall id :: id in effects ==> InTopic(topic, id) || (id in reports && reports[id].sentAt == None))
  }

  ghost predicate PassesOk(effects: map<EventId, Event>, passes: map<nat, Pass>, topic: Topic) {
    && (forall n, id :: n in passes && id in passes[n].rows ==>
          passes[n].rows[id].eventId == id && Tells(effects, passes[n].rows[id]))
    && (forall n, id :: n in passes && id in passes[n].acked ==> InTopic(topic, id))
  }

  ghost predicate TopicOk(effects: map<EventId, Event>, topic: Topic) {
    forall p, o :: p in topic && 0 <= o < |topic[p]| ==> Tells(effects, topic[p][o])
  }

  predicate IsClosed(tracked: set<EventId>, book: Book, id: EventId) {
    id in tracked ==> id in book.obligations && book.obligations[id].resolvedAt.Some?
  }

  ghost predicate ClosedUpTo(cfg: Config, topic: Topic, book: Book, p: int, n: nat) {
    n <= |LogOf(topic, p)| && forall o :: 0 <= o < n ==> IsClosed(cfg.tracked, book, LogOf(topic, p)[o].eventId)
  }

  ghost predicate OffsetsOk(
    cfg: Config, topic: Topic, book: Book, committed: map<int, nat>, positions: map<int, nat>,
    acks: set<map<int, nat>>)
  {
    && (forall p :: p in committed ==> ClosedUpTo(cfg, topic, book, p, committed[p]))
    && (forall p :: p in positions ==> ClosedUpTo(cfg, topic, book, p, positions[p]))
    && (forall a, p :: a in acks && p in a ==> ClosedUpTo(cfg, topic, book, p, a[p]))
  }

  /** With a quota the reservations are in order; without one there are none. */
  ghost predicate QuotaOk(cfg: Config, book: Book) {
    && (cfg.quota > 0 ==> WellKept(cfg.catalogue, book))
    && (cfg.quota > 0 && FewOperations(cfg.catalogue) ==> AllBalanced(book, cfg.quota))
    && (cfg.quota <= 0 ==> book.used == map[])
  }

  ghost predicate BookOk(cfg: Config, effects: map<EventId, Event>, book: Book) {
    && HasKnownEvents(cfg.catalogue, book)
    && QuotaOk(cfg, book)
    && (forall id :: id in effects ==> id in cfg.catalogue && effects[id] == cfg.catalogue[id])
    && (forall id :: id in effects && id in cfg.tracked ==> id in book.obligations)
    && (forall id :: id in book.obligations && book.obligations[id].resolvedAt.Some? ==> id in effects)
  }

  /** Each closing is the only one of its obligation. */
  ghost predicate ClosingsOk(book: Book, closings: seq<EventId>) {
    && (forall i, j :: 0 <= i < j < |closings| ==> closings[i] != closings[j])
    && (forall i :: 0 <= i < |closings| ==>
          closings[i] in book.obligations && book.obligations[closings[i]].resolvedAt.Some?)
  }

  ghost predicate Inv(cfg: Config, s: World) {
    && cfg.Valid()
    && ReportsOk(s.effects, s.reports, s.topic)
    && PassesOk(s.effects, s.passes, s.topic)
    && TopicOk(s.effects, s.topic)
    && OffsetsOk(cfg, s.topic, s.book, s.committed, s.positions, s.acks)
    && BookOk(cfg, s.effects, s.book)
    && ClosingsOk(s.book, s.closings)
  }

  // ---- the book: one operation at a time

  predicate Later(before: Book, after: Book) {
    forall id :: id in before.obligations ==>
      && id in after.obligations && after.obligations[id].event == before.obligations[id].event
      && (before.obligations[id].resolvedAt.Some? ==>
            after.obligations[id].resolvedAt == before.obligations[id].resolvedAt)
  }

  lemma OpIsLater(book: Book, op: Op, quota: int)
    ensures Later(book, Done(book, op, quota))
    ensures var after := Done(book, op, quota);
            forall id :: id in after.obligations && after.obligations[id].resolvedAt.Some? ==>
              id in book.obligations
                && (book.obligations[id].resolvedAt.Some? || (op.Resolve? && id == op.event.eventId))
  {
    hide OrderAccepted;
  }

  lemma OpKeepsEvents(catalogue: map<EventId, Event>, book: Book, op: Op, quota: int)
    requires HasKnownEvents(catalogue, book) && CanDo(catalogue, op)
    ensures HasKnownEvents(catalogue, Done(book, op, quota))
  {
    hide OrderAccepted;
  }

  lemma OpKeepsBalance(cfg: Config, book: Book, op: Op)
    requires cfg.Valid() && cfg.quota > 0 && WellKept(cfg.catalogue, book) && CanDo(cfg.catalogue, op)
    requires FewOperations(cfg.catalogue) && AllBalanced(book, cfg.quota)
    ensures AllBalanced(Done(book, op, cfg.quota), cfg.quota)
  {
    hide WellKept, FewOperations, Balanced, WellNumbered, Done;
    forall s
      ensures Balanced(Done(book, op, cfg.quota), s, cfg.quota)
    {
      DoneKeepsBalance(cfg.catalogue, book, op, cfg.quota, s);
    }
  }

  lemma OpKeepsQuota(cfg: Config, book: Book, op: Op)
    requires cfg.Valid() && QuotaOk(cfg, book) && CanDo(cfg.catalogue, op)
    ensures QuotaOk(cfg, Done(book, op, cfg.quota))
  {
    hide WellKept, FewOperations, AllBalanced, WellNumbered, CanDo;
    if cfg.quota <= 0 {
      OpReservesNothing(book, op, cfg.quota);
    } else {
      hide Done;
      DoneKeepsBook(cfg.catalogue, book, op, cfg.quota);
      if FewOperations(cfg.catalogue) {
        OpKeepsBalance(cfg, book, op);
      }
    }
  }

  lemma OpKeepsBook(cfg: Config, effects: map<EventId, Event>, book: Book, op: Op)
    requires cfg.Valid() && BookOk(cfg, effects, book) && CanDo(cfg.catalogue, op)
    requires op.Resolve? ==> op.event.eventId in effects
    ensures BookOk(cfg, effects, Done(book, op, cfg.quota)) && Later(book, Done(book, op, cfg.quota))
  {
    hide HasKnownEvents, QuotaOk, WellNumbered, Done;
    OpKeepsEvents(cfg.catalogue, book, op, cfg.quota);
    OpKeepsQuota(cfg, book, op);
    OpIsLater(book, op, cfg.quota);
  }

  lemma ClosedStays(cfg: Config, topic: Topic, book: Book, after: Book, p: int, n: nat)
    requires Later(book, after) && ClosedUpTo(cfg, topic, book, p, n)
    ensures ClosedUpTo(cfg, topic, after, p, n)
  {
    forall o | 0 <= o < n
      ensures IsClosed(cfg.tracked, after, LogOf(topic, p)[o].eventId)
    {
      assert IsClosed(cfg.tracked, book, LogOf(topic, p)[o].eventId);
    }
  }

  lemma LaterKeepsOffsets(
    cfg: Config, topic: Topic, book: Book, after: Book, committed: map<int, nat>, positions: map<int, nat>,
    acks: set<map<int, nat>>)
    requires Later(book, after) && OffsetsOk(cfg, topic, book, committed, positions, acks)
    ensures OffsetsOk(cfg, topic, after, committed, positions, acks)
  {
    hide Later;
    forall p | p in committed
      ensures ClosedUpTo(cfg, topic, after, p, committed[p])
    {
      ClosedStays(cfg, topic, book, after, p, committed[p]);
    }
    forall p | p in positions
      ensures ClosedUpTo(cfg, topic, after, p, positions[p])
    {
      ClosedStays(cfg, topic, book, after, p, positions[p]);
    }
    forall a, p | a in acks && p in a
      ensures ClosedUpTo(cfg, topic, after, p, a[p])
    {
      ClosedStays(cfg, topic, book, after, p, a[p]);
    }
  }

  lemma LaterIsTransitive(a: Book, b: Book, c: Book)
    requires Later(a, b) && Later(b, c)
    ensures Later(a, c)
  {
  }

  lemma KnownDelivery(cfg: Config, effects: map<EventId, Event>, book: Book, c: Completion)
    requires cfg.Valid() && BookOk(cfg, effects, book) && Tells(effects, c)
    ensures Known(cfg.catalogue, effects[c.eventId]) && effects[c.eventId].eventId == c.eventId
    ensures effects[c.eventId].sellerId == c.sellerId
    ensures c.eventId in cfg.tracked ==> c.eventId in book.obligations
  {
  }

  /** A batch of the topic keeps the book. */
  lemma {:induction false} BatchKeepsBook(
    cfg: Config, effects: map<EventId, Event>, book: Book, records: seq<Completion>, now: int)
    requires cfg.Valid() && BookOk(cfg, effects, book) && forall i :: 0 <= i < |records| ==> Tells(effects, records[i])
    ensures BookOk(cfg, effects, ResolveAll(book, records, now)) && Later(book, ResolveAll(book, records, now))
  {
    hide BookOk, WellNumbered;
    if records != [] {
      var n := |records| - 1;
      var c, before := records[n], ResolveAll(book, records[..n], now);
      BatchKeepsBook(cfg, effects, book, records[..n], now);
      KnownDelivery(cfg, effects, before, c);
      var op := Op.Resolve(effects[c.eventId], now);
      OpKeepsBook(cfg, effects, before, op);
      assert Done(before, op, cfg.quota) == AfterResolve(before, c.eventId, c.sellerId, now);
      LaterIsTransitive(book, before, ResolveAll(book, records, now));
    }
  }

  /** Everything a batch tells of is closed afterwards. */
  lemma {:induction false} BatchCloses(
    cfg: Config, effects: map<EventId, Event>, book: Book, records: seq<Completion>, now: int)
    requires cfg.Valid() && BookOk(cfg, effects, book) && forall i :: 0 <= i < |records| ==> Tells(effects, records[i])
    ensures forall i :: 0 <= i < |records| ==> IsClosed(cfg.tracked, ResolveAll(book, records, now), records[i].eventId)
  {
    hide BookOk, WellNumbered;
    if records != [] {
      var n := |records| - 1;
      var c, before := records[n], ResolveAll(book, records[..n], now);
      BatchCloses(cfg, effects, book, records[..n], now);
      BatchKeepsBook(cfg, effects, book, records[..n], now);
      KnownDelivery(cfg, effects, before, c);
      forall i | 0 <= i < n
        ensures IsClosed(cfg.tracked, ResolveAll(book, records, now), records[i].eventId)
      {
        assert records[..n][i] == records[i];
        assert IsClosed(cfg.tracked, before, records[i].eventId);
      }
    }
  }

  lemma OneMoreClosing(book: Book, c: Completion, now: int, closings: seq<EventId>)
    requires ClosingsOk(book, closings)
    ensures ClosingsOk(AfterResolve(book, c.eventId, c.sellerId, now),
          closings + (if IsOpen(book, c.eventId) then [c.eventId] else []))
  {
  }

  /** What a batch closes it closes once, and nothing that was closed before. */
  lemma {:induction false} BatchClosesOnce(book: Book, records: seq<Completion>, now: int, closings: seq<EventId>)
    requires ClosingsOk(book, closings)
    ensures ClosingsOk(ResolveAll(book, records, now), closings + ClosedBy(book, records, now))
  {
    if records == [] {
      assert closings + [] == closings;
    } else {
      var n := |records| - 1;
      var c, before := records[n], ResolveAll(book, records[..n], now);
      BatchClosesOnce(book, records[..n], now, closings);
      OneMoreClosing(before, c, now, closings + ClosedBy(book, records[..n], now));
      assert closings + ClosedBy(book, records, now) ==
        closings + ClosedBy(book, records[..n], now) + (if IsOpen(before, c.eventId) then [c.eventId] else []);
    }
  }

  // ---- the other tables

  lemma DeliverKeepsReports(
    effects: map<EventId, Event>, reports: map<EventId, Report>, topic: Topic, e: Event, owner: InstanceId,
    at: int)
    requires ReportsOk(effects, reports, topic) && e.eventId !in effects
    ensures var row := Report(Completion(e.eventId, e.sellerId, at), owner, at, None);
            e.eventId !in reports && ReportsOk(effects[e.eventId := e], reports[e.eventId := row], topic)
  {
  }

  lemma DeliverKeepsPasses(effects: map<EventId, Event>, passes: map<nat, Pass>, topic: Topic, e: Event)
    requires PassesOk(effects, passes, topic) && TopicOk(effects, topic) && e.eventId !in effects
    ensures PassesOk(effects[e.eventId := e], passes, topic) && TopicOk(effects[e.eventId := e], topic)
  {
  }

  lemma DeliverKeepsBook(cfg: Config, effects: map<EventId, Event>, book: Book, e: Event)
    requires BookOk(cfg, effects, book) && Known(cfg.catalogue, e)
    requires (e.eventId in cfg.tracked ==> e.eventId in book.obligations)
    ensures BookOk(cfg, effects[e.eventId := e], book)
  {
    hide HasKnownEvents, QuotaOk;
  }

  lemma SelectKeepsPasses(
    effects: map<EventId, Event>, reports: map<EventId, Report>, passes: map<nat, Pass>, topic: Topic, n: nat,
    instance: InstanceId, ids: set<EventId>)
    requires ReportsOk(effects, reports, topic) && PassesOk(effects, passes, topic) && ids <= reports.Keys
    ensures PassesOk(effects, passes[n := Pass(instance, Selected(reports, ids), {})], topic)
  {
  }

  lemma AppendedIsInTopic(topic: Topic, p: int, c: Completion, id: EventId)
    ensures var after := topic[p := LogOf(topic, p) + [c]];
            InTopic(after, id) <==> InTopic(topic, id) || id == c.eventId
  {
    var after := topic[p := LogOf(topic, p) + [c]];
    assert after[p][|LogOf(topic, p)|] == c;
    if InTopic(topic, id) {
      var q, o :| q in topic && 0 <= o < |topic[q]| && topic[q][o].eventId == id;
      assert after[q][o].eventId == id;
    }
    if InTopic(after, id) {
      var q, o :| q in after && 0 <= o < |after[q]| && after[q][o].eventId == id;
      assert q != p ==> q in topic && topic[q][o].eventId == id;
      assert q == p && o < |LogOf(topic, p)| ==> p in topic && topic[p][o].eventId == id;
    }
  }

  lemma SendKeepsTopic(
    effects: map<EventId, Event>, reports: map<EventId, Report>, topic: Topic, p: int, c: Completion)
    requires ReportsOk(effects, reports, topic) && TopicOk(effects, topic) && Tells(effects, c)
    ensures var after := topic[p := LogOf(topic, p) + [c]];
            ReportsOk(effects, reports, after) && TopicOk(effects, after)
  {
    hide InTopic;
    forall id
      ensures InTopic(topic, id) ==> InTopic(topic[p := LogOf(topic, p) + [c]], id)
    {
      AppendedIsInTopic(topic, p, c, id);
    }
  }

  lemma SendKeepsPasses(
    effects: map<EventId, Event>, passes: map<nat, Pass>, topic: Topic, n: nat, id: EventId, p: int, acked: bool)
    requires PassesOk(effects, passes, topic) && n in passes && id in passes[n].rows
    ensures var after := if acked then passes[n].(acked := passes[n].acked + {id}) else passes[n];
            PassesOk(effects, passes[n := after], topic[p := LogOf(topic, p) + [passes[n].rows[id]]])
  {
    hide InTopic;
    var more := topic[p := LogOf(topic, p) + [passes[n].rows[id]]];
    var changed := passes[n := if acked then passes[n].(acked := passes[n].acked + {id}) else passes[n]];
    assert passes[n].rows[id].eventId == id;
    forall m, i | m in changed && i in changed[m].acked
      ensures InTopic(more, i)
    {
      AppendedIsInTopic(topic, p, passes[n].rows[id], i);
      assert i in passes[m].acked || i == id;
    }
  }

  lemma SendKeepsOffsets(
    cfg: Config, topic: Topic, book: Book, committed: map<int, nat>, positions: map<int, nat>,
    acks: set<map<int, nat>>, q: int, c: Completion)
    requires OffsetsOk(cfg, topic, book, committed, positions, acks)
    ensures OffsetsOk(cfg, topic[q := LogOf(topic, q) + [c]], book, committed, positions, acks)
  {
    forall p, n | ClosedUpTo(cfg, topic, book, p, n)
      ensures ClosedUpTo(cfg, topic[q := LogOf(topic, q) + [c]], book, p, n)
    {
      assert LogOf(topic, p) <= LogOf(topic[q := LogOf(topic, q) + [c]], p);
    }
    hide ClosedUpTo;
  }

  lemma MarkKeepsReports(
    effects: map<EventId, Event>, reports: map<EventId, Report>, topic: Topic, ids: set<EventId>, sentAt: int)
    requires ReportsOk(effects, reports, topic) && forall id :: id in ids ==> InTopic(topic, id)
    ensures ReportsOk(effects, Marked(reports, ids, sentAt), topic)
  {
    hide InTopic;
  }

  lemma PurgeKeepsReports(effects: map<EventId, Event>, reports: map<EventId, Report>, topic: Topic, ids: set<EventId>)
    requires ReportsOk(effects, reports, topic) && forall id :: id in ids && id in reports ==> reports[id].sentAt.Some?
    ensures ReportsOk(effects, reports - ids, topic)
  {
    hide InTopic;
  }

  lemma BatchTells(
    effects: map<EventId, Event>, topic: Topic, positions: map<int, nat>, upto: map<int, nat>,
    records: seq<Completion>)
    requires TopicOk(effects, topic) && IsBatch(topic, positions, upto, records)
    ensures forall i :: 0 <= i < |records| ==> Tells(effects, records[i])
  {
    forall i | 0 <= i < |records|
      ensures Tells(effects, records[i])
    {
      assert IsPolled(topic, positions, upto, records[i]);
    }
  }

  lemma BatchAdvances(
    cfg: Config, topic: Topic, book: Book, after: Book, positions: map<int, nat>, upto: map<int, nat>,
    records: seq<Completion>, p: int)
    requires IsBatch(topic, positions, upto, records) && p in upto && Later(book, after)
    requires ClosedUpTo(cfg, topic, book, p, positions[p])
    requires forall i :: 0 <= i < |records| ==> IsClosed(cfg.tracked, after, records[i].eventId)
    ensures ClosedUpTo(cfg, topic, after, p, upto[p])
  {
    ClosedStays(cfg, topic, book, after, p, positions[p]);
    forall o | 0 <= o < upto[p]
      ensures IsClosed(cfg.tracked, after, LogOf(topic, p)[o].eventId)
    {
      if o >= positions[p] {
        assert topic[p][o] in records;
        var i :| 0 <= i < |records| && records[i] == topic[p][o];
      }
    }
  }

  // ---- every step keeps the invariant

  lemma DeliverKeepsInv(cfg: Config, s: World, e: Event, owner: InstanceId, completedAt: int)
    requires Inv(cfg, s) && CanStep(cfg, s, Deliver(e, owner, completedAt))
    ensures Inv(cfg, After(cfg, s, Deliver(e, owner, completedAt)))
  {
    hide ReportsOk, PassesOk, TopicOk, OffsetsOk, BookOk, ClosingsOk, WellNumbered;
    DeliverKeepsReports(s.effects, s.reports, s.topic, e, owner, completedAt);
    DeliverKeepsPasses(s.effects, s.passes, s.topic, e);
    DeliverKeepsBook(cfg, s.effects, s.book, e);
  }

  lemma SendKeepsInv(cfg: Config, s: World, n: nat, id: EventId, p: int, acked: bool)
    requires Inv(cfg, s) && CanStep(cfg, s, Send(n, id, p, acked))
    ensures Inv(cfg, After(cfg, s, Send(n, id, p, acked)))
  {
    assert Tells(s.effects, s.passes[n].rows[id]);
    hide ReportsOk, PassesOk, TopicOk, OffsetsOk, BookOk, ClosingsOk, WellNumbered, Tells;
    SendKeepsTopic(s.effects, s.reports, s.topic, p, s.passes[n].rows[id]);
    SendKeepsPasses(s.effects, s.passes, s.topic, n, id, p, acked);
    SendKeepsOffsets(cfg, s.topic, s.book, s.committed, s.positions, s.acks, p, s.passes[n].rows[id]);
  }

  lemma MarkKeepsInv(cfg: Config, s: World, n: nat, sentAt: int)
    requires Inv(cfg, s) && CanStep(cfg, s, MarkSent(n, sentAt))
    ensures Inv(cfg, After(cfg, s, MarkSent(n, sentAt)))
  {
    hide ReportsOk, OffsetsOk, BookOk, ClosingsOk, WellNumbered, InTopic;
    assert forall id :: id in s.passes[n].rows.Keys ==> id in s.passes[n].acked;
    MarkKeepsReports(s.effects, s.reports, s.topic, s.passes[n].rows.Keys, sentAt);
  }

  lemma BatchKeepsOffsets(
    cfg: Config, topic: Topic, book: Book, after: Book, committed: map<int, nat>, positions: map<int, nat>,
    acks: set<map<int, nat>>, upto: map<int, nat>, records: seq<Completion>)
    requires Later(book, after) && OffsetsOk(cfg, topic, book, committed, positions, acks)
    requires IsBatch(topic, positions, upto, records)
    requires forall i :: 0 <= i < |records| ==> IsClosed(cfg.tracked, after, records[i].eventId)
    ensures OffsetsOk(cfg, topic, after, committed, positions + upto, acks + {upto})
  {
    hide Later, ClosedUpTo, IsClosed, IsPolled;
    LaterKeepsOffsets(cfg, topic, book, after, committed, positions, acks);
    forall p | p in upto
      ensures ClosedUpTo(cfg, topic, after, p, upto[p])
    {
      BatchAdvances(cfg, topic, book, after, positions, upto, records, p);
    }
  }

  lemma ReceiveKeepsInv(cfg: Config, s: World, upto: map<int, nat>, records: seq<Completion>, now: int)
    requires Inv(cfg, s) && CanStep(cfg, s, Receive(upto, records, now))
    ensures Inv(cfg, After(cfg, s, Receive(upto, records, now)))
  {
    var after := ResolveAll(s.book, records, now);
    BatchTells(s.effects, s.topic, s.positions, upto, records);
    hide ReportsOk, PassesOk, TopicOk, BookOk, ClosingsOk, WellNumbered, ResolveAll, ClosedBy, Tells, ClosedUpTo,
      IsClosed, Later, IsPolled;
    BatchKeepsBook(cfg, s.effects, s.book, records, now);
    BatchCloses(cfg, s.effects, s.book, records, now);
    BatchClosesOnce(s.book, records, now, s.closings);
    BatchKeepsOffsets(cfg, s.topic, s.book, after, s.committed, s.positions, s.acks, upto, records);
  }

  lemma LaterKeepsClosings(book: Book, after: Book, closings: seq<EventId>)
    requires Later(book, after) && ClosingsOk(book, closings)
    ensures ClosingsOk(after, closings)
  {
  }

  lemma AcceptKeepsInv(cfg: Config, s: World, e: Event, now: int)
    requires Inv(cfg, s) && CanStep(cfg, s, CompletionProtocol.Accept(e, now))
    ensures Inv(cfg, After(cfg, s, CompletionProtocol.Accept(e, now)))
  {
    hide ReportsOk, PassesOk, TopicOk, OffsetsOk, BookOk, WellNumbered, AfterAccept;
    var op := Op.Accept(e, now);
    OpKeepsBook(cfg, s.effects, s.book, op);
    assert Done(s.book, op, cfg.quota) == AfterAccept(s.book, e, cfg.quota, now);
    LaterKeepsOffsets(cfg, s.topic, s.book, Done(s.book, op, cfg.quota), s.committed, s.positions, s.acks);
    LaterKeepsClosings(s.book, Done(s.book, op, cfg.quota), s.closings);
  }

  lemma OffsetMovesKeepInv(cfg: Config, s: World, step: Step)
    requires Inv(cfg, s) && CanStep(cfg, s, step) && (step.Assign? || step.Acknowledge? || step.Restart?)
    ensures Inv(cfg, After(cfg, s, step))
  {
    hide ReportsOk, PassesOk, TopicOk, BookOk, ClosingsOk, WellNumbered, IsClosed;
  }

  lemma RelayStepsKeepInv(cfg: Config, s: World, step: Step)
    requires Inv(cfg, s) && CanStep(cfg, s, step) && (step.Select? || step.DropPass? || step.PurgeSent?)
    ensures Inv(cfg, After(cfg, s, step))
  {
    if step.Select? {
      SelectKeepsPasses(s.effects, s.reports, s.passes, s.topic, step.pass, step.instance, step.ids);
    } else if step.PurgeSent? {
      PurgeKeepsReports(s.effects, s.reports, s.topic, step.ids);
    }
    hide ReportsOk, TopicOk, OffsetsOk, BookOk, ClosingsOk, WellNumbered, InTopic;
  }

  lemma StepKeepsInv(cfg: Config, s: World, step: Step)
    requires Inv(cfg, s) && CanStep(cfg, s, step)
    ensures Inv(cfg, After(cfg, s, step))
  {
    hide Inv, CanStep, After;
    match step
    case Accept(e, now) => AcceptKeepsInv(cfg, s, e, now);
    case Deliver(e, owner, completedAt) => DeliverKeepsInv(cfg, s, e, owner, completedAt);
    case Send(n, id, p, acked) => SendKeepsInv(cfg, s, n, id, p, acked);
    case MarkSent(n, sentAt) => MarkKeepsInv(cfg, s, n, sentAt);
    case Receive(upto, records, now) => ReceiveKeepsInv(cfg, s, upto, records, now);
    case Assign(_, _) => OffsetMovesKeepInv(cfg, s, step);
    case Acknowledge(_) => OffsetMovesKeepInv(cfg, s, step);
    case Restart => OffsetMovesKeepInv(cfg, s, step);
    case Select(_, _, _, _) => RelayStepsKeepInv(cfg, s, step);
    case DropPass(_) => RelayStepsKeepInv(cfg, s, step);
    case PurgeSent(_, _) => RelayStepsKeepInv(cfg, s, step);
  }

  lemma InitialInv(cfg: Config)
    requires cfg.Valid()
    ensures Inv(cfg, INITIAL)
  {
    if cfg.quota > 0 {
      forall s
        ensures Balanced(EMPTY, s, cfg.quota)
      {
        EmptyIsBalanced(cfg.catalogue, s, cfg.quota);
      }
      EmptyIsBalanced(cfg.catalogue, 0, cfg.quota);
    }
  }

  lemma {:induction false} RunKeepsInv(cfg: Config, s: World, run: seq<Step>)
    requires Inv(cfg, s) && IsRun(cfg, s, run)
    ensures Inv(cfg, End(cfg, s, run))
    decreases |run|
  {
    hide Inv, CanStep, After;
    if run != [] {
      StepKeepsInv(cfg, s, run[0]);
      RunKeepsInv(cfg, After(cfg, s, run[0]), run[1..]);
    }
  }

  // ---- the theorems

  /**
   * Whichever instance relays a report and however often, a recorded delivery keeps an unsent report
   * until the broker has one; and only recorded deliveries are ever reported.
   */
  lemma ReportsAreNeverLost(cfg: Config, run: seq<Step>, id: EventId)
    requires cfg.Valid() && IsRun(cfg, INITIAL, run)
    ensures var s := End(cfg, INITIAL, run);
            id in s.effects <==> InTopic(s.topic, id) || (id in s.reports && s.reports[id].sentAt == None)
  {
    InitialInv(cfg);
    RunKeepsInv(cfg, INITIAL, run);
    var s := End(cfg, INITIAL, run);
    hide IsRun, End, PassesOk, OffsetsOk, BookOk, ClosingsOk, WellNumbered;
    if InTopic(s.topic, id) {
      var p, o :| p in s.topic && 0 <= o < |s.topic[p]| && s.topic[p][o].eventId == id;
      assert Tells(s.effects, s.topic[p][o]);
    }
  }

  lemma ClosingsAreDelivered(cfg: Config, effects: map<EventId, Event>, book: Book, closings: seq<EventId>)
    requires BookOk(cfg, effects, book) && ClosingsOk(book, closings)
    ensures forall i, j :: 0 <= i < j < |closings| ==> closings[i] != closings[j]
    ensures forall i :: 0 <= i < |closings| ==> closings[i] in effects
    ensures forall id :: id in book.obligations && book.obligations[id].resolvedAt.Some? ==> id in effects
  {
    hide HasKnownEvents, QuotaOk;
    forall i | 0 <= i < |closings|
      ensures closings[i] in effects
    {
      var id := closings[i];
      assert id in book.obligations && book.obligations[id].resolvedAt.Some?;
    }
  }

  /** Each obligation is closed at most once, and only if its event is in the ledger. */
  lemma ClosedOnceAfterDelivery(cfg: Config, run: seq<Step>)
    requires cfg.Valid() && IsRun(cfg, INITIAL, run)
    ensures var s := End(cfg, INITIAL, run);
            && (forall i, j :: 0 <= i < j < |s.closings| ==> s.closings[i] != s.closings[j])
            && (forall i :: 0 <= i < |s.closings| ==> s.closings[i] in s.effects)
            && (forall id :: id in s.book.obligations && s.book.obligations[id].resolvedAt.Some? ==> id in s.effects)
  {
    InitialInv(cfg);
    RunKeepsInv(cfg, INITIAL, run);
    var s := End(cfg, INITIAL, run);
    hide IsRun, End, ReportsOk, PassesOk, OffsetsOk, TopicOk, BookOk, ClosingsOk, WellNumbered;
    ClosingsAreDelivered(cfg, s.effects, s.book, s.closings);
  }

  /**
   * With a quota and at most three operations per order, the books balance in every state of the channel;
   * without a quota nothing is ever reserved.
   */
  lemma ChannelConservesQuota(cfg: Config, run: seq<Step>, sellerId: SellerId)
    requires cfg.Valid() && IsRun(cfg, INITIAL, run)
    ensures cfg.quota > 0 && FewOperations(cfg.catalogue) ==>
          Balanced(End(cfg, INITIAL, run).book, sellerId, cfg.quota)
    ensures cfg.quota <= 0 ==> End(cfg, INITIAL, run).book.used == map[]
  {
    InitialInv(cfg);
    RunKeepsInv(cfg, INITIAL, run);
    hide IsRun, End, ReportsOk, PassesOk, OffsetsOk, TopicOk, WellNumbered, WellKept, FewOperations, Balanced;
  }

  /** Nothing below a committed offset is still open. */
  lemma CommittedIsClosed(cfg: Config, run: seq<Step>, p: int, o: nat)
    requires cfg.Valid() && IsRun(cfg, INITIAL, run)
    requires var s := End(cfg, INITIAL, run); o < Committed(s, p)
    ensures var s := End(cfg, INITIAL, run);
            o < |LogOf(s.topic, p)| && IsClosed(cfg.tracked, s.book, LogOf(s.topic, p)[o].eventId)
  {
    InitialInv(cfg);
    RunKeepsInv(cfg, INITIAL, run);
    hide IsRun, End, ReportsOk, PassesOk, TopicOk, BookOk, WellNumbered;
  }

  ghost predicate Quiet(s: World) {
    && (forall id :: id in s.reports ==> s.reports[id].sentAt.Some?)
    && (forall p :: p in s.topic ==> Committed(s, p) == |s.topic[p]|)
  }

  /** Once everything is relayed and consumed, exactly the delivered obligations are closed. */
  lemma QuietIsSettled(cfg: Config, run: seq<Step>, id: EventId)
    requires cfg.Valid() && IsRun(cfg, INITIAL, run) && Quiet(End(cfg, INITIAL, run))
    requires id in End(cfg, INITIAL, run).book.obligations && id in cfg.tracked
    ensures var s := End(cfg, INITIAL, run);
            s.book.obligations[id].resolvedAt.Some? <==> id in s.effects
  {
    ReportsAreNeverLost(cfg, run, id);
    ClosedOnceAfterDelivery(cfg, run);
    var s := End(cfg, INITIAL, run);
    if id in s.effects {
      var p, o :| p in s.topic && 0 <= o < |s.topic[p]| && s.topic[p][o].eventId == id;
      CommittedIsClosed(cfg, run, p, o);
    }
  }

  // ---- every report gets through

  lemma {:induction false} RunsJoin(cfg: Config, s: World, first: seq<Step>, second: seq<Step>)
    requires IsRun(cfg, s, first) && IsRun(cfg, End(cfg, s, first), second)
    ensures IsRun(cfg, s, first + second) && End(cfg, s, first + second) == End(cfg, End(cfg, s, first), second)
    decreases |first|
  {
    hide CanStep, After;
    if first == [] {
      assert first + second == second;
    } else {
      assert (first + second)[1..] == first[1..] + second;
      RunsJoin(cfg, After(cfg, s, first[0]), first[1..], second);
    }
  }

  lemma OneStep(cfg: Config, s: World, step: Step)
    requires CanStep(cfg, s, step)
    ensures IsRun(cfg, s, [step]) && End(cfg, s, [step]) == After(cfg, s, step)
  {
    hide CanStep, After;
    assert [step][1..] == [];
  }

  /** Any instance can put an unsent report on the topic, its own at once and another's after ten seconds. */
  lemma AnyInstanceCanRelay(
    cfg: Config, s: World, id: EventId, instance: InstanceId, pass: nat, p: int) returns (run: seq<Step>)
    requires id in s.reports && s.reports[id].sentAt == None && s.reports[id].completion.eventId == id
    requires pass !in s.passes
    ensures IsRun(cfg, s, run) && InTopic(End(cfg, s, run).topic, id)
    ensures End(cfg, s, run).effects == s.effects
  {
    var select := Select(pass, instance, s.reports[id].createdAt + ORPHAN_AFTER_MS + 1, {id});
    OneStep(cfg, s, select);
    var selected := After(cfg, s, select);
    var send := Send(pass, id, p, true);
    OneStep(cfg, selected, send);
    RunsJoin(cfg, s, [select], [send]);
    run := [select] + [send];
    AppendedIsInTopic(s.topic, p, s.reports[id].completion, id);
  }

  lemma WholePartitionIsBatch(topic: Topic, positions: map<int, nat>, p: int)
    requires p in topic && p in positions && positions[p] == 0
    ensures IsBatch(topic, positions, map[p := |topic[p]|], topic[p])
  {
    var upto := map[p := |topic[p]|];
    forall i | 0 <= i < |topic[p]|
      ensures IsPolled(topic, positions, upto, topic[p][i])
    {
      assert p in upto && positions[p] <= i < upto[p] && topic[p][i] == topic[p][i];
    }
  }

  /** What is on the topic closes its obligation once the source has read its partition from the start. */
  lemma SourceCanClose(cfg: Config, s: World, id: EventId) returns (run: seq<Step>)
    requires Inv(cfg, s) && InTopic(s.topic, id)
    ensures IsRun(cfg, s, run) && IsClosed(cfg.tracked, End(cfg, s, run).book, id)
  {
    var p, o :| p in s.topic && 0 <= o < |s.topic[p]| && s.topic[p][o].eventId == id;
    hide IsRun, End, ReportsOk, PassesOk, TopicOk, OffsetsOk, BookOk, ClosingsOk, WellNumbered, InTopic, IsClosed,
      ResolveAll, ClosedBy, IsPolled, IsBatch, Tells;
    var assign := Assign(p, 0);
    OneStep(cfg, s, assign);
    var placed := After(cfg, s, assign);
    var upto, records := map[p := |s.topic[p]|], s.topic[p];
    var receive := Receive(upto, records, 0);
    WholePartitionIsBatch(placed.topic, placed.positions, p);
    OneStep(cfg, placed, receive);
    RunsJoin(cfg, s, [assign], [receive]);
    run := [assign] + [receive];
    BatchTells(s.effects, s.topic, placed.positions, upto, records);
    BatchCloses(cfg, s.effects, s.book, records, 0);
    assert records[o].eventId == id;
  }

  lemma NoStep(cfg: Config, s: World)
    ensures IsRun(cfg, s, []) && End(cfg, s, []) == s
  {
  }

  /**
   * No reachable state is a dead end for a report: whatever instances are gone, one that is left needs
   * only the broker and the source to get the obligation of a recorded delivery closed.
   */
  lemma EveryDeliveryCanBeClosed(
    cfg: Config, past: seq<Step>, id: EventId, instance: InstanceId, pass: nat) returns (run: seq<Step>)
    requires cfg.Valid() && IsRun(cfg, INITIAL, past)
    requires var s := End(cfg, INITIAL, past); id in s.effects && pass !in s.passes
    ensures var s := End(cfg, INITIAL, past);
            IsRun(cfg, s, run) && IsClosed(cfg.tracked, End(cfg, s, run).book, id)
  {
    InitialInv(cfg);
    RunKeepsInv(cfg, INITIAL, past);
    ReportsAreNeverLost(cfg, past, id);
    var s := End(cfg, INITIAL, past);
    hide IsRun, End, IsClosed;
    var relay := [];
    if !InTopic(s.topic, id) {
      relay := AnyInstanceCanRelay(cfg, s, id, instance, pass, 0);
    } else {
      NoStep(cfg, s);
    }
    RunKeepsInv(cfg, s, relay);
    hide Inv;
    var close := SourceCanClose(cfg, End(cfg, s, relay), id);
    RunsJoin(cfg, s, relay, close);
    run := relay + close;
  }
}
