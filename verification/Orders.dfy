/** Orders as the source keeps them, and the services that move them on. */
module Orders {
  import opened Domain
  import opened OrderSource

  class Order {
    const orderId: int
    const sellerId: SellerId
    const runId: int
    var quantity: int
    var price: real
    var orderStatus: Status
    var partnerSequence: nat

    ghost function Content(): OrderState
      reads this
    {
      OrderState(sellerId, runId, quantity, price, orderStatus, partnerSequence)
    }

    constructor (orderId: int, state: OrderState)
      ensures Content() == state && this.orderId == orderId
    {
      this.orderId, sellerId, runId := orderId, state.sellerId, state.runId;
      quantity, price, orderStatus, partnerSequence := state.quantity, state.price, state.status, state.partnerSequence;
    }

    method NextPartnerSequence() returns (sequence: nat)
      modifies this`partnerSequence
      ensures sequence == partnerSequence == old(partnerSequence) + 1
    {
      partnerSequence := partnerSequence + 1;
      sequence := partnerSequence;
    }

    /** Only a confirmed order can change; otherwise nothing happens and the caller throws. */
    method ChangeForPartner(quantity: int, price: real) returns (ok: bool)
      modifies this
      ensures ok <==> old(orderStatus) == CONFIRMED
      ensures Content() == if ok then old(Content()).(quantity := quantity, price := price) else old(Content())
    {
      ok := orderStatus == CONFIRMED;
      if !ok { return; }
      this.quantity := quantity;
      this.price := price;
    }

    method CancelForPartner() returns (ok: bool)
      modifies this
      ensures ok <==> old(orderStatus) == CONFIRMED
      ensures Content() == if ok then old(Content()).(status := CANCELLED) else old(Content())
    {
      ok := orderStatus == CONFIRMED;
      if !ok { return; }
      orderStatus := CANCELLED;
    }

    /** Only a pending order is confirmed or cancelled by a stock result; a repeated or late one changes nothing. */
    method TransitionTo(target: Status) returns (moved: bool)
      modifies this
      ensures moved <==> old(orderStatus) == PENDING
      ensures Content() == if moved then old(Content()).(status := target) else old(Content())
    {
      if orderStatus != PENDING { return false; }
      orderStatus := target;
      moved := true;
    }

    function State(): OrderState
      reads this
    {
      OrderState(sellerId, runId, quantity, price, orderStatus, partnerSequence)
    }
  }

  class OrderService {
    var orders: map<int, OrderState>
    var outbox: map<Entry, bool>
    var delivered: set<Event>
    ghost var history: seq<Event>

    ghost function Content(): Source
      reads this
    {
      Source(orders, outbox, delivered, history)
    }

    constructor ()
      ensures Content() == Source(map[], map[], {}, [])
    {
      orders, outbox, delivered, history := map[], map[], {}, [];
    }

    /** The pending orders and undelivered requests the database counts. */
    method CountUnfinishedBusiness() returns (count: nat)
      ensures count == CountUnfinished(Content())
    {
      var pending := set id | id in orders && orders[id].status == PENDING;
      var requests := set entry | entry in outbox && entry.Request? :: entry.event;
      count := |pending| + |requests - delivered|;
    }

    /** Saves the order and announces it, or refuses both. */
    method CreateWithOutbox(orderId: int, sellerId: SellerId, runId: int, quantity: int, price: real) returns (ok: bool)
      modifies this
      ensures Content() == AfterCreate(old(Content()), orderId, sellerId, runId, quantity, price)
      ensures ok <==> !OutboxFull(old(Content())) && !BusinessFull(old(Content()))
    {
      hide CountUnfinished;
      if |outbox| >= OUTBOX_LIMIT { return false; }
      var unfinished := CountUnfinishedBusiness();
      if unfinished >= UNFINISHED_LIMIT { return false; }
      orders := orders[orderId := OrderState(sellerId, runId, quantity, price, PENDING, 0)];
      outbox := outbox[Created(orderId) := false];
      ok := true;
    }

    /**
     * Numbers the order's next request and writes it. A failed capacity check comes before the number is
     * taken and before anything is saved.
     */
    method EnqueuePartner(order: Order, operation: Operation, eventId: EventId, now: int) returns (ok: bool)
      modifies this, order`partnerSequence
      ensures ok <==> !OutboxFull(old(Content())) && (operation == CREATE || !BusinessFull(old(Content())))
      ensures ok ==>
            Content() == WithRequest(old(Content()), order.orderId, old(order.Content()), operation, eventId, now)
      ensures !ok ==> Content() == old(Content()) && order.Content() == old(order.Content())
    {
      hide CountUnfinished;
      if |outbox| >= OUTBOX_LIMIT { return false; }
      if operation != CREATE {
        var unfinished := CountUnfinishedBusiness();
        if unfinished >= UNFINISHED_LIMIT { return false; }
      }
      var sequence := order.NextPartnerSequence();
      var event :=
        Event(eventId, order.runId, order.sellerId, order.orderId, sequence, operation, now, order.quantity,
          order.price);
      outbox := outbox[Request(event) := false];
      orders := orders[order.orderId := order.State()];
      history := history + [event];
      ok := true;
    }

    /** Changes or cancels an order the partner knows of. */
    method Mutate(orderId: int, quantity: int, price: real, cancel: bool, eventId: EventId, now: int) returns (ok: bool)
      modifies this
      ensures ok <==> MayMutate(old(Content()), orderId)
      ensures Content() ==
        if cancel then AfterCancel(old(Content()), orderId, eventId, now)
        else AfterChange(old(Content()), orderId, quantity, price, eventId, now)
    {
      hide CountUnfinished;
      if orderId !in orders { return false; }
      if orders[orderId].partnerSequence == 0 { return false; }
      var order := new Order(orderId, orders[orderId]);
      if cancel {
        ok := order.CancelForPartner();
      } else {
        ok := order.ChangeForPartner(quantity, price);
      }
      if !ok { return; }
      ok := EnqueuePartner(order, if cancel then CANCEL else CHANGE, eventId, now);
    }

    method HandleStockUpdated(orderId: int, eventId: EventId, now: int) returns (ok: bool)
      modifies this
      ensures Content() == AfterStockUpdated(old(Content()), orderId, eventId, now)
      ensures !ok <==> orderId in old(orders) && old(orders)[orderId].status == PENDING && OutboxFull(old(Content()))
    {
      hide CountUnfinished;
      if orderId !in orders { return true; }
      var order := new Order(orderId, orders[orderId]);
      var moved := order.TransitionTo(CONFIRMED);
      ok := true;
      if moved {
        ok := EnqueuePartner(order, CREATE, eventId, now);
      }
    }

    method HandleStockUpdateFailed(orderId: int)
      modifies this
      ensures Content() == AfterStockFailed(old(Content()), orderId)
    {
      if orderId !in orders { return; }
      var order := new Order(orderId, orders[orderId]);
      var moved := order.TransitionTo(CANCELLED);
      if moved {
        orders := orders[orderId := order.State()];
      }
    }
  }
}
