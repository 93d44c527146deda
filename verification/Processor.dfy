/**
 * Delivering one event: the checks, the call to the seller, and the transaction that records the
 * delivery, reports it and completes the claim, all or nothing.
 */
module Processor {
  import opened Domain
  import opened InboxTables
  import opened PartnerDatabase
  import opened DeliveryProtocol
  import opened InboxStore
  import CompletionProtocol
  import opened CompletionRelay

  /** How the processing of one event ends; everything but the first two is an exception to the caller. */
  datatype Outcome =
    | Delivered
    | AlreadyDelivered     // another worker recorded it first
    | PredecessorPending
    | CallFailed           // no permission, no answer, or any answer but 200
    | Stale                // the recording found the token void
    | PredecessorChanged
    | AlreadyTaken         // a unique key of the ledger was taken meanwhile

  predicate IsDone(outcome: Outcome) {
    outcome.Delivered? || outcome.AlreadyDelivered?
  }

  /** Readings of the clock: at the first check, when the recording starts, and the completion time. */
  datatype Times = Times(check: int, record: int, doneAt: int)

  /** The first checks send the event to the seller. */
  predicate Calls(t: Tables, e: Event) {
    e.eventId !in t.effects && LastSequence(t.orders, e.Key()) + 1 == e.sequence
  }

  /** The recording transaction on its own. */
  function Recording(t: Tables, e: Event, claim: Option<Claim>, now: int, doneAt: int): (Tables, Outcome) {
    if !StillHolds(t.inbox, claim, now) then (t, Stale)
    else
      var completed := t.(inbox := CompletedBy(t.inbox, claim, doneAt), permits := ReleasedBy(t.permits, claim));
      if e.eventId in t.effects then (completed, AlreadyDelivered)
      else if LastSequence(t.orders, e.Key()) + 1 != e.sequence then (t, PredecessorChanged)
      else if Collides(t.effects, e) then (t, AlreadyTaken)
      else (completed.(effects := t.effects[e.eventId := e], orders := t.orders[e.Key() := e.Latest()]), Delivered)
  }

  /** The way out when the event was in the ledger from the start. */
  function FinishedDuplicate(t: Tables, claim: Option<Claim>, now: int, doneAt: int): Tables {
    t.(inbox := if StillHolds(t.inbox, claim, now) then CompletedBy(t.inbox, claim, doneAt) else t.inbox,
       permits := ReleasedBy(t.permits, claim))
  }

  /** Checks on the tables before the call, everything else on the tables as others left them during it. */
  function Processing(before: Tables, between: Tables, e: Event, claim: Option<Claim>, accepted: bool, at: Times)
    : (Tables, Outcome)
  {
    if e.eventId in before.effects then (FinishedDuplicate(before, claim, at.check, at.doneAt), AlreadyDelivered)
    else if !Calls(before, e) then (before, PredecessorPending)
    else if !accepted then (between, CallFailed)
    else Recording(between, e, claim, at.record, at.doneAt)
  }

  class PartnerOrderRepository {
    const db: Database

    constructor (db: Database)
      ensures this.db == db
    {
      this.db := db;
    }

    /** Inserts the effect and moves the order to it; refused when either unique key of the ledger is taken. */
    method RecordDelivery(e: Event) returns (ok: bool)
      modifies db
      ensures ok <==> !Collides(old(db.effects), e)
      ensures db.Content() ==
        if ok then old(db.Content()).(effects := old(db.effects)[e.eventId := e],
          orders := old(db.orders)[e.Key() := e.Latest()])
        else old(db.Content())
    {
      ok := !Collides(db.effects, e);
      if ok {
        db.effects := db.effects[e.eventId := e];
        db.orders := db.orders[e.Key() := OrderRow(e.sequence, e.operation, e.quantity, e.price)];
      }
    }
  }

  class PartnerOrderProcessor {
    const db: Database
    const orders: PartnerOrderRepository
    const inbox: InboxRepository
    const completions: CompletionOutbox

    ghost predicate Valid() {
      orders.db == db && inbox.db == db
    }

    constructor (orders: PartnerOrderRepository, inbox: InboxRepository, completions: CompletionOutbox)
      requires orders.db == inbox.db
      ensures Valid() && this.orders == orders && this.inbox == inbox && this.completions == completions
      ensures db == orders.db
    {
      this.db, this.orders, this.inbox, this.completions := orders.db, orders, inbox, completions;
    }

    /**
     * Delivers one event. While the seller is being called other transactions may change every table;
     * between is what they left, and the completion reports likewise. A report is written
     * exactly when a delivery is recorded.
     */
    method Process(
      e: Event, claim: Option<Claim>, accepted: bool, between: Tables,
      reportsBetween: map<EventId, CompletionProtocol.Report>, at: Times)
      returns (outcome: Outcome, called: bool)
      requires Valid()
      modifies db, completions
      ensures called <==> Calls(old(db.Content()), e)
      ensures (db.Content(), outcome) == Processing(old(db.Content()), between, e, claim, accepted, at)
      ensures completions.reports ==
        if outcome == Delivered then Recorded(reportsBetween, completions.enabled, completions.owner, e, at.doneAt)
        else if called then reportsBetween
        else old(completions.reports)
    {
      called := false;
      if e.eventId in db.effects {
        if claim.Some? {
          var held := inbox.StillHolds(claim.value, at.check);
          if held {
            inbox.Complete(claim.value, at.doneAt);
          } else {
            inbox.Release(claim.value);
          }
        }
        outcome := AlreadyDelivered;
        return;
      }
      if LastSequence(db.orders, e.Key()) + 1 != e.sequence { return PredecessorPending, false; }
      called := true;
      db.inbox, db.permits, db.admissions, db.effects, db.orders :=
        between.inbox, between.permits, between.admissions, between.effects, between.orders;
      completions.reports := reportsBetween;
      if !accepted { return CallFailed, true; }
      outcome := Record(e, claim, at);
    }

    /** The recording transaction. */
    method Record(e: Event, claim: Option<Claim>, at: Times) returns (outcome: Outcome)
      requires Valid()
      modifies db, completions
      ensures (db.Content(), outcome) == Recording(old(db.Content()), e, claim, at.record, at.doneAt)
      ensures completions.reports ==
        if outcome == Delivered
          then Recorded(old(completions.reports), completions.enabled, completions.owner, e, at.doneAt)
        else old(completions.reports)
    {
      if claim.Some? {
        var held := inbox.StillHolds(claim.value, at.record);
        if !held { return Stale; }
      }
      if e.eventId in db.effects {
        if claim.Some? {
          inbox.Complete(claim.value, at.doneAt);
        }
        return AlreadyDelivered;
      }
      if LastSequence(db.orders, e.Key()) + 1 != e.sequence { return PredecessorChanged; }
      var ok := orders.RecordDelivery(e);
      if !ok { return AlreadyTaken; }
      completions.Record(e, at.doneAt);
      if claim.Some? {
        inbox.Complete(claim.value, at.doneAt);
      }
      outcome := Delivered;
    }
  }
}
