/**
 * The way back to the source as a state machine: the reports that deliveries leave, the relay passes of
 * all instances, a topic on which reports may repeat, and the source that reads it.
 */
module CompletionProtocol {
  import opened Domain
  import opened Obligations

  /** What a report tells the source. */
  datatype Completion = Completion(eventId: EventId, sellerId: SellerId, completedAt: int)

  /** A row of the completion outbox; it has no send time until the broker acknowledged its whole batch. */
  datatype Report = Report(completion: Completion, owner: InstanceId, createdAt: int, sentAt: Option<int>)

  const ORPHAN_AFTER_MS := 10_000
  const KEEP_SENT_MS := 60_000

  /** One relay pass between reading its rows and marking them: the rows it read and the sends acknowledged so far. */
  datatype Pass = Pass(instance: InstanceId, rows: map<EventId, Completion>, acked: set<EventId>)

  /**
   * Tracked events need an obligation before they are delivered; the others never have one. Without a
   * positive quota the source accepts everything.
   */
  datatype Config = Config(catalogue: map<EventId, Event>, tracked: set<EventId>, quota: int) {
    predicate Valid() {
      WellNumbered(catalogue)
    }
  }

  type Topic = map<int, seq<Completion>>

  /** The closings are every obligation ever closed, in order. */
  datatype World = World(
    effects: map<EventId, Event>,
    reports: map<EventId, Report>,
    passes: map<nat, Pass>,
    topic: Topic,
    committed: map<int, nat>,
    positions: map<int, nat>,
    acks: set<map<int, nat>>,
    book: Book,
    closings: seq<EventId>)

  const INITIAL := World(map[], map[], map[], map[], map[], map[], {}, EMPTY, [])

  datatype Step =
    | Accept(event: Event, now: int)
    | Deliver(event: Event, owner: InstanceId, completedAt: int)
    | Select(pass: nat, instance: InstanceId, now: int, ids: set<EventId>)
    | Send(pass: nat, id: EventId, partition: int, acked: bool)
    | MarkSent(pass: nat, sentAt: int)
    | DropPass(pass: nat)
    | PurgeSent(ids: set<EventId>, now: int)
    | Assign(partition: int, position: nat)
    | Receive(upto: map<int, nat>, records: seq<Completion>, now: int)
    | Acknowledge(upto: map<int, nat>)
    | Restart

  // ---- the relay

  /** An instance relays what it wrote itself, and what anyone wrote too long ago. */
  predicate MayRelay(report: Report, instance: InstanceId, now: int) {
    report.sentAt == None && (report.owner == instance || report.createdAt < now - ORPHAN_AFTER_MS)
  }

  function Selected(reports: map<EventId, Report>, ids: set<EventId>): map<EventId, Completion>
    requires ids <= reports.Keys
  {
    map id | id in ids :: reports[id].completion
  }

  function Marked(reports: map<EventId, Report>, ids: set<EventId>, sentAt: int): map<EventId, Report> {
    map id | id in reports :: if id in ids then reports[id].(sentAt := Some(sentAt)) else reports[id]
  }

  function LogOf(topic: Topic, partition: int): seq<Completion> {
    if partition in topic then topic[partition] else []
  }

  // ---- the source's listener

  function Committed(s: World, partition: int): nat {
    if partition in s.committed then s.committed[partition] else 0
  }

  predicate IsPolled(topic: Topic, positions: map<int, nat>, upto: map<int, nat>, c: Completion) {
    exists p, o ::
      p in upto && p in positions && p in topic && positions[p] <= o < upto[p] && o < |topic[p]| && topic[p][o] == c
  }

  /** The batch is exactly the records between each polled position and its new one. */
  predicate IsBatch(topic: Topic, positions: map<int, nat>, upto: map<int, nat>, records: seq<Completion>) {
    && (forall p :: p in upto ==> p in topic && p in positions && positions[p] <= upto[p] <= |topic[p]|)
    && (forall i :: 0 <= i < |records| ==> IsPolled(topic, positions, upto, records[i]))
    && (forall p, o :: p in upto && positions[p] <= o < upto[p] ==> topic[p][o] in records)
  }

  function ResolveAll(book: Book, records: seq<Completion>, now: int): Book {
    if records == [] then book
    else
      var c := records[|records| - 1];
      AfterResolve(ResolveAll(book, records[..|records| - 1], now), c.eventId, c.sellerId, now)
  }

  /** The obligations a batch actually closes, in order. */
  function ClosedBy(book: Book, records: seq<Completion>, now: int): seq<EventId> {
    if records == [] then []
    else
      var before, c := records[..|records| - 1], records[|records| - 1];
      ClosedBy(book, before, now) + (if IsOpen(ResolveAll(book, before, now), c.eventId) then [c.eventId] else [])
  }

  // ---- steps

  predicate CanStep(cfg: Config, s: World, step: Step) {
    match step
    case Accept(e, _) => Known(cfg.catalogue, e) && e.eventId in cfg.tracked
    case Deliver(e, _, _) =>
      && Known(cfg.catalogue, e) && e.eventId !in s.effects
      && (e.eventId in cfg.tracked ==> e.eventId in s.book.obligations)
    case Select(pass, instance, now, ids) =>
      pass !in s.passes && ids <= s.reports.Keys && forall id :: id in ids ==> MayRelay(s.reports[id], instance, now)
    case Send(pass, id, _, _) => pass in s.passes && id in s.passes[pass].rows
    case MarkSent(pass, _) => pass in s.passes && s.passes[pass].acked == s.passes[pass].rows.Keys
    case DropPass(_) => true
    case PurgeSent(ids, now) =>
      forall id :: id in ids && id in s.reports ==>
        s.reports[id].sentAt.Some? && s.reports[id].sentAt.value < now - KEEP_SENT_MS
    case Assign(partition, position) => position <= Committed(s, partition)
    case Receive(upto, records, _) => IsBatch(s.topic, s.positions, upto, records)
    case Acknowledge(upto) => upto in s.acks
    case Restart => true
  }

  function AfterDeliver(s: World, e: Event, owner: InstanceId, completedAt: int): World {
    s.(effects := s.effects[e.eventId := e],
       reports := if e.eventId in s.reports then s.reports
                  else s.reports[e.eventId :=
                    Report(Completion(e.eventId, e.sellerId, completedAt), owner, completedAt, None)])
  }

  /** The broker has the record; the acknowledgement may still be lost. */
  function AfterSend(s: World, pass: nat, id: EventId, partition: int, acked: bool): World
    requires pass in s.passes && id in s.passes[pass].rows
  {
    var p := s.passes[pass];
    s.(topic := s.topic[partition := LogOf(s.topic, partition) + [p.rows[id]]],
       passes := s.passes[pass := if acked then p.(acked := p.acked + {id}) else p])
  }

  function After(cfg: Config, s: World, step: Step): World
    requires CanStep(cfg, s, step)
  {
    match step
    case Accept(e, now) => s.(book := AfterAccept(s.book, e, cfg.quota, now))
    case Deliver(e, owner, completedAt) => AfterDeliver(s, e, owner, completedAt)
    case Select(pass, instance, _, ids) => s.(passes := s.passes[pass := Pass(instance, Selected(s.reports, ids), {})])
    case Send(pass, id, partition, acked) => AfterSend(s, pass, id, partition, acked)
    case MarkSent(pass, sentAt) => s.(reports := Marked(s.reports, s.passes[pass].rows.Keys, sentAt),
      passes := s.passes - {pass})
    case DropPass(pass) => s.(passes := s.passes - {pass})
    case PurgeSent(ids, _) => s.(reports := s.reports - ids)
    case Assign(partition, position) => s.(positions := s.positions[partition := position])
    case Receive(upto, records, now) =>
      s.(book := ResolveAll(s.book, records, now), closings := s.closings + ClosedBy(s.book, records, now),
         positions := s.positions + upto, acks := s.acks + {upto})
    case Acknowledge(upto) => s.(committed := s.committed + upto, acks := s.acks - {upto})
    case Restart => s.(positions := map[], acks := {})
  }

  predicate IsRun(cfg: Config, s: World, run: seq<Step>)
    decreases |run|
  {
    run == [] || (CanStep(cfg, s, run[0]) && IsRun(cfg, After(cfg, s, run[0]), run[1..]))
  }

  function End(cfg: Config, s: World, run: seq<Step>): World
    requires IsRun(cfg, s, run)
    decreases |run|
  {
    if run == [] then s else End(cfg, After(cfg, s, run[0]), run[1..])
  }
}
