/**
 * What the source tells the partner, word for word: the requests of an order are those that its creation, its
 * stock result and the user's mutations amount to, and the last one says how the order stands.
 */
module OrderContents {
  import opened Domain
  import opened OrderSource
  import opened OrderTheorems

  // ---- what a user may expect to be told

  /** An order as those who asked for it know it. */
  datatype Deal = Deal(sellerId: SellerId, runId: int, quantity: int, price: real, status: Status)

  predicate OutboxHasRoom(s: Source) {
    |s.outbox| < 2000
  }

  /** Fewer than 200 orders wait for their stock or requests for their delivery, as far as the outbox knows. */
  predicate SourceHasRoom(s: Source) {
    var waiting := set id | id in s.orders && s.orders[id].status == PENDING;
    var undelivered :=
      set entry | entry in s.outbox && entry.Request? && entry.event !in s.delivered :: entry.event;
    |waiting| + |undelivered| < 200
  }

  /** Stock has been found for an order that was still waiting for it. */
  predicate Confirms(s: Source, step: Step, id: int) {
    && step.StockUpdated? && step.orderId == id && id in s.orders && s.orders[id].status == PENDING
    && OutboxHasRoom(s)
  }

  /** A user changes or cancels a confirmed order that has been announced to the partner. */
  predicate Mutates(s: Source, step: Step, id: int) {
    && (step.Change? || step.Cancel?) && step.orderId == id
    && id in s.orders && s.orders[id].status == CONFIRMED && s.orders[id].partnerSequence > 0
    && OutboxHasRoom(s) && SourceHasRoom(s)
  }

  /** Stock was missing for an order that was still waiting for it. */
  predicate Fails(step: Step, id: int, deal: Deal) {
    step.StockFailed? && step.orderId == id && deal.status == PENDING
  }

  /** The deal after a step. */
  function Struck(s: Source, step: Step, id: int, deal: Option<Deal>): Option<Deal> {
    if step.Create? && step.orderId == id && OutboxHasRoom(s) && SourceHasRoom(s) then
      Some(Deal(step.sellerId, step.runId, step.quantity, step.price, PENDING))
    else if deal == None then None
    else
      var d := deal.value;
      if Confirms(s, step, id) then Some(d.(status := CONFIRMED))
      else if Fails(step, id, d) then Some(d.(status := CANCELLED))
      else if !Mutates(s, step, id) then deal
      else if step.Change? then Some(d.(quantity := step.quantity, price := step.price))
      else Some(d.(status := CANCELLED))
  }

  /** What a step makes the source tell the partner of the order, as its n-th request. */
  function Told(s: Source, step: Step, id: int, deal: Option<Deal>, n: nat): seq<Event> {
    if deal == None then []
    else
      var d := deal.value;
      if Confirms(s, step, id) then
        [Event(step.eventId, d.runId, d.sellerId, id, n, CREATE, step.now, d.quantity, d.price)]
      else if Mutates(s, step, id) then
        if step.Change? then
          [Event(step.eventId, d.runId, d.sellerId, id, n, CHANGE, step.now, step.quantity, step.price)]
        else [Event(step.eventId, d.runId, d.sellerId, id, n, CANCEL, step.now, d.quantity, d.price)]
      else []
  }

  function DealAfter(s: Source, run: seq<Step>, id: int, deal: Option<Deal>): Option<Deal>
    decreases |run|
  {
    if run == [] then deal else DealAfter(After(s, run[0]), run[1..], id, Struck(s, run[0], id, deal))
  }

  function AllTold(s: Source, run: seq<Step>, id: int, deal: Option<Deal>, n: nat): seq<Event>
    decreases |run|
  {
    if run == [] then []
    else
      var first := Told(s, run[0], id, deal, n);
      first + AllTold(After(s, run[0]), run[1..], id, Struck(s, run[0], id, deal), n + |first|)
  }

  /** The deal that the source's row of an order stands for. */
  function DealOf(s: Source, id: int): Option<Deal> {
    if id !in s.orders then None
    else
      var order := s.orders[id];
      Some(Deal(order.sellerId, order.runId, order.quantity, order.price, order.status))
  }

  // ---- the source keeps to it

  lemma RoomIs(s: Source)
    ensures OutboxFull(s) <==> !OutboxHasRoom(s)
    ensures BusinessFull(s) <==> !SourceHasRoom(s)
  {
    var undelivered :=
      set entry | entry in s.outbox && entry.Request? && entry.event !in s.delivered :: entry.event;
    assert undelivered == Requests(s) - s.delivered;
    assert PendingOrders(s) == set id | id in s.orders && s.orders[id].status == PENDING;
  }

  lemma MayMutateIs(s: Source, step: Step)
    requires step.Change? || step.Cancel?
    ensures MayMutate(s, step.orderId) <==> Mutates(s, step, step.orderId)
  {
    RoomIs(s);
    hide OutboxFull, BusinessFull, OutboxHasRoom, SourceHasRoom;
  }

  lemma RequestTells(
    s: Source, orderId: int, order: OrderState, operation: Operation, eventId: EventId, now: int, id: int)
    requires order.partnerSequence == |RequestsOf(s.history, orderId)|
    ensures var t, requests := WithRequest(s, orderId, order, operation, eventId, now), RequestsOf(s.history, id);
            RequestsOf(t.history, id) ==
              if id == orderId then
                requests + [Event(eventId, order.runId, order.sellerId, id, |requests| + 1, operation, now,
                                  order.quantity, order.price)]
              else requests
    ensures var t := WithRequest(s, orderId, order, operation, eventId, now);
            DealOf(t, id) ==
              if id == orderId then
                Some(Deal(order.sellerId, order.runId, order.quantity, order.price, order.status))
              else DealOf(s, id)
  {
    AppendRequest(s.history, RequestOf(orderId, order, operation, eventId, now), id);
    assert RequestsOf(s.history, id) + [] == RequestsOf(s.history, id);
  }

  lemma MutationTells(s: Source, step: Step, id: int)
    requires (step.Change? || step.Cancel?) && OrderOk(s, step.orderId)
    ensures var t, requests := After(s, step), RequestsOf(s.history, id);
            && DealOf(t, id) == Struck(s, step, id, DealOf(s, id))
            && RequestsOf(t.history, id) == requests + Told(s, step, id, DealOf(s, id), |requests| + 1)
  {
    MayMutateIs(s, step);
    hide MayMutate, WithRequest, RequestsOf, Spells, NumberedFromOne, OutboxHasRoom, SourceHasRoom;
    assert RequestsOf(s.history, id) + [] == RequestsOf(s.history, id);
    if Mutates(s, step, step.orderId) {
      var order := s.orders[step.orderId];
      if step.Change? {
        RequestTells(s, step.orderId, order.(quantity := step.quantity, price := step.price), CHANGE, step.eventId,
          step.now, id);
      } else {
        RequestTells(s, step.orderId, order.(status := CANCELLED), CANCEL, step.eventId, step.now, id);
      }
    }
  }

  lemma ConfirmationTells(s: Source, step: Step, id: int)
    requires step.StockUpdated? && OrderOk(s, step.orderId)
    ensures var t, requests := After(s, step), RequestsOf(s.history, id);
            && DealOf(t, id) == Struck(s, step, id, DealOf(s, id))
            && RequestsOf(t.history, id) == requests + Told(s, step, id, DealOf(s, id), |requests| + 1)
  {
    RoomIs(s);
    hide WithRequest, RequestsOf, Spells, NumberedFromOne, OutboxFull, OutboxHasRoom, SourceHasRoom;
    assert RequestsOf(s.history, id) + [] == RequestsOf(s.history, id);
    if Confirms(s, step, step.orderId) {
      RequestTells(s, step.orderId, s.orders[step.orderId].(status := CONFIRMED), CREATE, step.eventId, step.now, id);
    }
  }

  lemma OthersTellNothing(s: Source, step: Step, id: int)
    requires CanStep(s, step) && !step.Change? && !step.Cancel? && !step.StockUpdated?
    ensures After(s, step).history == s.history
    ensures DealOf(After(s, step), id) == Struck(s, step, id, DealOf(s, id))
  {
    RoomIs(s);
    hide OrderSource.Sent, IsFresh, OutboxFull, BusinessFull, OutboxHasRoom, SourceHasRoom;
  }

  lemma NothingTold(s: Source, step: Step, id: int)
    requires !step.Change? && !step.Cancel? && !step.StockUpdated?
    ensures Told(s, step, id, DealOf(s, id), |RequestsOf(s.history, id)| + 1) == []
  {
  }

  lemma StepTells(s: Source, step: Step, id: int)
    requires Inv(s) && CanStep(s, step)
    ensures var t, requests := After(s, step), RequestsOf(s.history, id);
            && DealOf(t, id) == Struck(s, step, id, DealOf(s, id))
            && RequestsOf(t.history, id) == requests + Told(s, step, id, DealOf(s, id), |requests| + 1)
  {
    hide CanStep, After, OrderOk, ValuesOk, CountsOk, Told, Struck, RequestsOf;
    if step.Change? || step.Cancel? {
      assert OrderOk(s, step.orderId);
      MutationTells(s, step, id);
    } else if step.StockUpdated? {
      assert OrderOk(s, step.orderId);
      ConfirmationTells(s, step, id);
    } else {
      OthersTellNothing(s, step, id);
      NothingTold(s, step, id);
    }
  }

  lemma {:induction false} RunTells(s: Source, run: seq<Step>, id: int)
    requires Inv(s) && IsRun(s, run)
    ensures var t, requests := End(s, run), RequestsOf(s.history, id);
            && DealOf(t, id) == DealAfter(s, run, id, DealOf(s, id))
            && RequestsOf(t.history, id) == requests + AllTold(s, run, id, DealOf(s, id), |requests| + 1)
    decreases |run|
  {
    hide Inv, CanStep, After, Told, Struck, RequestsOf, DealOf;
    var requests := RequestsOf(s.history, id);
    if run == [] {
      assert requests + [] == requests;
    } else {
      StepTells(s, run[0], id);
      StepKeepsInv(s, run[0]);
      RunTells(After(s, run[0]), run[1..], id);
    }
  }

  /**
   * In every run the requests of an order are exactly what the orderer, the stock results and the user's
   * mutations amount to: every CREATE carries what was ordered, every CHANGE what it named, every CANCEL what
   * was agreed last, all with the seller and the run of the order, in sequence, and nothing else is ever told.
   */
  lemma RequestsSayWhatWasAsked(start: Source, run: seq<Step>, id: int)
    requires IsStart(start) && IsRun(start, run)
    ensures RequestsOf(End(start, run).history, id) == AllTold(start, run, id, DealOf(start, id), 1)
    ensures DealOf(End(start, run), id) == DealAfter(start, run, id, DealOf(start, id))
  {
    StartInv(start);
    RunTells(start, run, id);
    var told := AllTold(start, run, id, DealOf(start, id), 1);
    assert RequestsOf(start.history, id) == [] && [] + told == told;
  }

  // ---- the last request

  predicate Carries(e: Event, deal: Option<Deal>) {
    deal.Some? && e.sellerId == deal.value.sellerId && e.runId == deal.value.runId
    && e.quantity == deal.value.quantity && e.price == deal.value.price
  }

  /** The last request of an order carries its present terms. */
  ghost predicate LastWord(s: Source, id: int) {
    var requests := RequestsOf(s.history, id);
    requests != [] ==> Carries(requests[|requests| - 1], DealOf(s, id))
  }

  predicate SameTerms(a: Deal, b: Deal) {
    a.sellerId == b.sellerId && a.runId == b.runId && a.quantity == b.quantity && a.price == b.price
  }

  lemma SameTermsCarry(e: Event, deal: Option<Deal>, after: Option<Deal>)
    requires Carries(e, deal) && deal.Some? && after.Some? && SameTerms(deal.value, after.value)
    ensures Carries(e, after)
  {
  }

  lemma CarriedExists(s: Source, e: Event, id: int)
    requires Carries(e, DealOf(s, id))
    ensures id in s.orders && DealOf(s, id).Some?
    ensures e.sellerId == s.orders[id].sellerId && e.runId == s.orders[id].runId
    ensures e.quantity == s.orders[id].quantity && e.price == s.orders[id].price
  {
  }

  /** A told request carries the deal as it is after the step, and only a request or a creation changes its terms. */
  lemma ToldIs(s: Source, step: Step, id: int)
    ensures var deal := DealOf(s, id);
            var told, after := Told(s, step, id, deal, |RequestsOf(s.history, id)| + 1), Struck(s, step, id, deal);
            && |told| <= 1
            && (told != [] ==> Carries(told[0], after))
            && (told == [] && deal.Some? && !(step.Create? && step.orderId == id) ==>
                  after.Some? && SameTerms(deal.value, after.value))
  {
    hide OutboxHasRoom, SourceHasRoom, RequestsOf;
  }

  /** Orders are not forgotten, and an order is not created twice. */
  lemma OrdersStay(s: Source, step: Step, id: int)
    requires CanStep(s, step) && id in s.orders
    ensures id in After(s, step).orders && !(step.Create? && step.orderId == id)
  {
    hide OutboxFull, BusinessFull, IsFresh, OrderSource.Sent;
  }

  lemma StepKeepsLastWord(s: Source, step: Step, id: int)
    requires Inv(s) && CanStep(s, step) && LastWord(s, id)
    ensures LastWord(After(s, step), id)
  {
    hide Inv, CanStep, After, Told, Struck, RequestsOf, DealOf, Carries;
    StepTells(s, step, id);
    var before, after := RequestsOf(s.history, id), RequestsOf(After(s, step).history, id);
    var told := Told(s, step, id, DealOf(s, id), |before| + 1);
    ToldIs(s, step, id);
    if told == [] {
      assert after == before;
      if before != [] {
        CarriedExists(s, before[|before| - 1], id);
        OrdersStay(s, step, id);
        SameTermsCarry(before[|before| - 1], DealOf(s, id), DealOf(After(s, step), id));
      }
    } else {
      assert after[|after| - 1] == told[0];
    }
  }

  lemma {:induction false} RunKeepsLastWord(s: Source, run: seq<Step>, id: int)
    requires Inv(s) && IsRun(s, run) && LastWord(s, id)
    ensures LastWord(End(s, run), id)
    decreases |run|
  {
    hide Inv, CanStep, After, LastWord;
    if run != [] {
      StepKeepsLastWord(s, run[0], id);
      StepKeepsInv(s, run[0]);
      RunKeepsLastWord(After(s, run[0]), run[1..], id);
    }
  }

  lemma LastOperation(requests: seq<Event>, status: Status)
    requires requests != [] && Spells(requests, status)
    ensures requests[|requests| - 1].operation ==
      if status == CANCELLED then CANCEL else if |requests| == 1 then CREATE else CHANGE
  {
  }

  /** How the partner is to know the order once it has every request. */
  function FinalRow(order: OrderState): OrderRow {
    OrderRow(order.partnerSequence,
      if order.status == CANCELLED then CANCEL else if order.partnerSequence == 1 then CREATE else CHANGE,
      order.quantity, order.price)
  }

  /** The last request of an order says how the order stands. */
  ghost predicate SaysHowItStands(s: Source, id: int) {
    var requests := RequestsOf(s.history, id);
    requests != [] ==>
      && id in s.orders && requests[|requests| - 1].Latest() == FinalRow(s.orders[id])
      && requests[|requests| - 1].sellerId == s.orders[id].sellerId
      && requests[|requests| - 1].runId == s.orders[id].runId
  }

  lemma LastWordSays(s: Source, id: int)
    requires OrderOk(s, id) && LastWord(s, id)
    ensures SaysHowItStands(s, id)
  {
    hide Spells, RequestsOf, Carries, DealOf;
    var requests := RequestsOf(s.history, id);
    if requests != [] {
      CarriedExists(s, requests[|requests| - 1], id);
      LastOperation(requests, s.orders[id].status);
    }
  }

  /** In every run the last request of an order says how the order stands. */
  lemma LastRequestIsTheOrder(start: Source, run: seq<Step>, id: int)
    requires IsStart(start) && IsRun(start, run)
    ensures SaysHowItStands(End(start, run), id)
  {
    StartInv(start);
    RunKeepsInv(start, run);
    RunKeepsLastWord(start, run, id);
    hide IsStart, End, IsRun, OrderOk, LastWord, ValuesOk, CountsOk, SaysHowItStands;
    assert OrderOk(End(start, run), id);
    LastWordSays(End(start, run), id);
  }

  // ---- the outbox

  /** The entry is in the outbox, and the relay has not marked it. */
  predicate IsUnsent(s: Source, entry: Entry) {
    entry in s.outbox && !s.outbox[entry]
  }

  predicate Marks(step: Step, entry: Entry) {
    step.MarkSent? && entry in step.entries
  }

  /** A step writes each request it makes, and each order it creates, into the outbox. */
  lemma NewsIsWritten(s: Source, step: Step)
    requires CanStep(s, step)
    ensures var t := After(s, step);
            && s.history <= t.history
            && (forall e :: e in t.history[|s.history|..] ==> IsUnsent(t, Request(e)))
            && (forall id :: id in t.orders && id !in s.orders ==> IsUnsent(t, Created(id)))
  {
    hide OutboxFull, BusinessFull, OrderSource.Sent, IsFresh;
    assert s.history + [] == s.history;
  }

  /** Whatever is not marked as sent stays: only what was marked is ever deleted. */
  lemma StepKeepsUnsent(s: Source, step: Step, entry: Entry)
    requires CanStep(s, step) && IsUnsent(s, entry) && !Marks(step, entry)
    ensures IsUnsent(After(s, step), entry)
  {
    hide OutboxFull, BusinessFull, IsFresh;
  }

  lemma {:induction false} RunKeepsUnsent(s: Source, run: seq<Step>, entry: Entry)
    requires IsRun(s, run) && IsUnsent(s, entry) && forall i :: 0 <= i < |run| ==> !Marks(run[i], entry)
    ensures IsUnsent(End(s, run), entry)
    decreases |run|
  {
    hide CanStep, After, IsUnsent, Marks;
    if run != [] {
      StepKeepsUnsent(s, run[0], entry);
      assert forall i :: 0 <= i < |run| - 1 ==> run[1..][i] == run[i + 1];
      RunKeepsUnsent(After(s, run[0]), run[1..], entry);
    }
  }

  /**
   * Whatever a step tells anyone - a request to the partner, a new order to the inventory - is in the outbox with the
   * step, and stays there through every later run until the relay has marked it as sent.
   */
  lemma NothingLeavesUnsent(s: Source, step: Step, later: seq<Step>, entry: Entry)
    requires CanStep(s, step) && IsRun(After(s, step), later)
    requires forall i :: 0 <= i < |later| ==> !Marks(later[i], entry)
    requires match entry
             case Request(e) => e in After(s, step).history && e !in s.history
             case Created(id) => id in After(s, step).orders && id !in s.orders
    ensures IsUnsent(End(After(s, step), later), entry)
  {
    NewsIsWritten(s, step);
    hide CanStep, After, IsUnsent, Marks;
    var t := After(s, step);
    if entry.Request? {
      assert t.history == s.history + t.history[|s.history|..];
    }
    RunKeepsUnsent(t, later, entry);
  }

  lemma StepKeepsOutbox(s: Source, step: Step)
    requires CanStep(s, step) && |s.outbox| <= 2000
    ensures |After(s, step).outbox| <= 2000
  {
    hide BusinessFull, IsFresh;
    var t := After(s, step);
    if step.MarkSent? {
      assert t.outbox.Keys == s.outbox.Keys;
    } else if step.PurgeSent? {
      SubsetIsSmaller(t.outbox.Keys, s.outbox.Keys);
    }
  }

  /** In every run the outbox keeps to its limit, sent rows included. */
  lemma {:induction false} OutboxStaysWithinLimit(s: Source, run: seq<Step>)
    requires |s.outbox| <= 2000 && IsRun(s, run)
    ensures |End(s, run).outbox| <= 2000
    decreases |run|
  {
    hide CanStep, After;
    if run != [] {
      StepKeepsOutbox(s, run[0]);
      OutboxStaysWithinLimit(After(s, run[0]), run[1..]);
    }
  }
}
