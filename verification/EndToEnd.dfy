/**
 * The source joined with the delivery protocol: what any run of orders makes of the partner's events,
 * and what any run of the partner then makes the seller apply.
 */
module EndToEnd {
  import opened Domain
  import InboxTables
  import SellerApi
  import DeliveryProtocol
  import DeliveryInvariant
  import DeliveryTheorems
  import OrderSource
  import opened OrderTheorems
  import OrderContents

  /** A partner that receives events of this source, each record of any partition one of its requests. */
  ghost predicate Receives(cfg: DeliveryProtocol.Config, s: OrderSource.Source) {
    && cfg.catalogue == Catalogue(s.history)
    && forall p, o :: p in cfg.topic && 0 <= o < |cfg.topic[p]| ==> Known(cfg.catalogue, cfg.topic[p][o])
  }

  /** The events of a source are what the delivery protocol takes for granted. */
  lemma SourceFeedsProtocol(start: OrderSource.Source, source: seq<OrderSource.Step>, cfg: DeliveryProtocol.Config)
    requires OrderSource.IsStart(start) && OrderSource.IsRun(start, source)
    requires Receives(cfg, OrderSource.End(start, source))
    ensures cfg.Valid()
  {
    hide OrderSource.IsRun, OrderSource.End, OrderSource.IsStart, WellNumbered;
    SourceIsWellNumbered(start, source);
  }

  /** Listed by order, the sequences of a log are those of its requests. */
  lemma {:induction false} SequencesAreRequests(log: seq<Event>, key: OrderKey)
    requires forall i :: 0 <= i < |log| && log[i].orderId == key.orderId ==> log[i].Key() == key
    ensures |SellerApi.SequencesOf(log, key)| == |RequestsOf(log, key.orderId)|
    ensures forall i :: 0 <= i < |RequestsOf(log, key.orderId)| ==>
      SellerApi.SequencesOf(log, key)[i] == RequestsOf(log, key.orderId)[i].sequence
  {
    if log != [] {
      SequencesAreRequests(log[..|log| - 1], key);
    }
  }

  lemma {:induction false} RequestsComeFromLog(log: seq<Event>, orderId: int, k: nat)
    requires k < |RequestsOf(log, orderId)|
    ensures exists i :: 0 <= i < |log| && log[i] == RequestsOf(log, orderId)[k] && log[i].orderId == orderId
  {
    var n := |log| - 1;
    if k < |RequestsOf(log[..n], orderId)| {
      RequestsComeFromLog(log[..n], orderId, k);
      var i :| 0 <= i < n && log[..n][i] == RequestsOf(log[..n], orderId)[k] && log[..n][i].orderId == orderId;
      assert log[i] == RequestsOf(log, orderId)[k];
    } else {
      assert log[n] == RequestsOf(log, orderId)[k] && log[n].orderId == orderId;
    }
  }

  /** An event of the catalogue is its order's request of that number. */
  lemma KnownIsRequest(s: OrderSource.Source, e: Event)
    requires Inv(s) && Known(Catalogue(s.history), e)
    ensures var requests := RequestsOf(s.history, e.orderId);
            1 <= e.sequence <= |requests| && requests[e.sequence - 1] == e
    ensures e.orderId in s.orders && e.sellerId == s.orders[e.orderId].sellerId
  {
    CatalogueIsHistory(s.history, e.eventId);
    var i :| 0 <= i < |s.history| && s.history[i] == e;
    assert OrderOk(s, e.orderId);
    RequestsAreOrdered(s.history, e.orderId, i);
  }

  lemma SellerIsOk(cfg: DeliveryProtocol.Config, world: DeliveryProtocol.World)
    requires DeliveryInvariant.Inv(cfg, world)
    ensures DeliveryInvariant.SellerOk(cfg.catalogue, world.seller)
  {
  }

  lemma LogIsKnown(catalogue: map<EventId, Event>, seller: SellerApi.Seller)
    requires DeliveryInvariant.SellerOk(catalogue, seller)
    ensures forall i :: 0 <= i < |seller.log| ==> Known(catalogue, seller.log[i])
    ensures forall key :: SellerApi.SequencesOf(seller.log, key) == SellerApi.UpTo(LastSequence(seller.orders, key))
  {
  }

  /** All an order's events in a log of known events are of one seller. */
  lemma OrderHasOneKey(s: OrderSource.Source, log: seq<Event>, orderId: int)
    requires Inv(s) && forall i :: 0 <= i < |log| ==> Known(Catalogue(s.history), log[i])
    requires orderId in s.orders
    ensures forall i :: 0 <= i < |log| && log[i].orderId == orderId ==>
          log[i].Key() == OrderKey(s.orders[orderId].sellerId, orderId)
  {
    forall i | 0 <= i < |log| && log[i].orderId == orderId
      ensures log[i].Key() == OrderKey(s.orders[orderId].sellerId, orderId)
    {
      KnownIsRequest(s, log[i]);
    }
  }

  /** The k-th event of an order in the log is the order's k-th request. */
  lemma AppliedIsRequest(s: OrderSource.Source, log: seq<Event>, key: OrderKey, last: int, k: nat)
    requires Inv(s) && forall i :: 0 <= i < |log| ==> Known(Catalogue(s.history), log[i])
    requires forall i :: 0 <= i < |log| && log[i].orderId == key.orderId ==> log[i].Key() == key
    requires SellerApi.SequencesOf(log, key) == SellerApi.UpTo(last) && k < |RequestsOf(log, key.orderId)|
    ensures k < |RequestsOf(s.history, key.orderId)|
    ensures RequestsOf(s.history, key.orderId)[k] == RequestsOf(log, key.orderId)[k]
  {
    SequencesAreRequests(log, key);
    hide Inv, Catalogue, SellerApi.SequencesOf, RequestsOf, Known;
    RequestsComeFromLog(log, key.orderId, k);
    var i :| 0 <= i < |log| && log[i] == RequestsOf(log, key.orderId)[k] && log[i].orderId == key.orderId;
    assert SellerApi.UpTo(last)[k] == k + 1;
    KnownIsRequest(s, log[i]);
  }

  lemma LogIsAPrefix(s: OrderSource.Source, cfg: DeliveryProtocol.Config, seller: SellerApi.Seller, orderId: int)
    requires Inv(s) && Receives(cfg, s) && DeliveryInvariant.SellerOk(cfg.catalogue, seller)
    ensures RequestsOf(seller.log, orderId) <= RequestsOf(s.history, orderId)
  {
    hide DeliveryInvariant.SellerOk, Inv, Catalogue, SellerApi.SequencesOf, SellerApi.UpTo, RequestsOf, Known,
      LastSequence;
    LogIsKnown(cfg.catalogue, seller);
    var applied, requests := RequestsOf(seller.log, orderId), RequestsOf(s.history, orderId);
    if applied != [] {
      RequestsComeFromLog(seller.log, orderId, 0);
      var first :| 0 <= first < |seller.log| && seller.log[first] == applied[0] && seller.log[first].orderId == orderId;
      KnownIsRequest(s, seller.log[first]);
      var key := OrderKey(s.orders[orderId].sellerId, orderId);
      OrderHasOneKey(s, seller.log, orderId);
      var last := LastSequence(seller.orders, key);
      forall k | 0 <= k < |applied|
        ensures k < |requests| && requests[k] == applied[k]
      {
        AppliedIsRequest(s, seller.log, key, last, k);
      }
      AppliedIsRequest(s, seller.log, key, last, |applied| - 1);
    }
  }

  /**
   * Whatever happens at the source, and whatever crashes, replays, stalls and losses happen on the way,
   * the seller applies to every order a prefix of the source's requests, in their order: a CREATE before
   * any CHANGE, nothing after a CANCEL, nothing twice and nothing that was not asked for.
   */
  lemma SellerAppliesAPrefix(
    start: OrderSource.Source, source: seq<OrderSource.Step>, cfg: DeliveryProtocol.Config, clock: int,
    run: seq<DeliveryProtocol.Step>, orderId: int)
    requires OrderSource.IsStart(start) && OrderSource.IsRun(start, source)
    requires Receives(cfg, OrderSource.End(start, source))
    requires DeliveryProtocol.IsRun(cfg, DeliveryProtocol.Initial(clock), run)
    ensures var log := DeliveryProtocol.End(cfg, DeliveryProtocol.Initial(clock), run).seller.log;
            RequestsOf(log, orderId) <= RequestsOf(OrderSource.End(start, source).history, orderId)
  {
    StartInv(start);
    RunKeepsInv(start, source);
    SourceFeedsProtocol(start, source, cfg);
    DeliveryTheorems.ReachableInv(cfg, clock, run);
    var s, world := OrderSource.End(start, source), DeliveryProtocol.End(cfg, DeliveryProtocol.Initial(clock), run);
    assert DeliveryInvariant.SellerOk(cfg.catalogue, world.seller) by { SellerIsOk(cfg, world); }
    hide OrderSource.IsStart, OrderSource.IsRun, OrderSource.End, DeliveryProtocol.IsRun, DeliveryProtocol.End,
      DeliveryInvariant.Inv;
    LogIsAPrefix(s, cfg, world.seller, orderId);
  }

  // ---- the order as both ends know it

  lemma LedgerIsKnown(s: OrderSource.Source, effects: InboxTables.Effects, orders: InboxTables.Orders, i: EventId)
    requires DeliveryInvariant.LedgerOk(Catalogue(s.history), effects, orders) && i in effects && Inv(s)
    ensures Known(Catalogue(s.history), effects[i])
  {
    CatalogueIsHistory(s.history, i);
  }

  /** A ledger whose last event of an order is the order's last request has the order's final row. */
  lemma LedgerHasFinalRow(
    s: OrderSource.Source, effects: InboxTables.Effects, orders: InboxTables.Orders, id: int)
    requires Inv(s) && OrderContents.SaysHowItStands(s, id) && id in s.orders
    requires DeliveryInvariant.LedgerOk(Catalogue(s.history), effects, orders)
    requires var key := OrderKey(s.orders[id].sellerId, id);
          LastSequence(orders, key) >= s.orders[id].partnerSequence > 0
    ensures var key := OrderKey(s.orders[id].sellerId, id);
            key in orders && orders[key] == OrderContents.FinalRow(s.orders[id])
  {
    var key, requests := OrderKey(s.orders[id].sellerId, id), RequestsOf(s.history, id);
    var last := LastSequence(orders, key);
    assert DeliveryInvariant.Delivered(effects, key, last);
    var i :| i in effects && effects[i].Key() == key && effects[i].sequence == last;
    assert Known(Catalogue(s.history), effects[i]) by {
      hide Inv;
      LedgerIsKnown(s, effects, orders, i);
    }
    KnownIsRequest(s, effects[i]);
    assert OrderOk(s, id);
    hide Inv, Catalogue, RequestsOf, Spells, OrderContents.FinalRow;
    assert requests[|requests| - 1] == effects[i];
  }

  /** Every request of the order is in the partner's ledger. */
  ghost predicate AllDelivered(s: OrderSource.Source, effects: InboxTables.Effects, id: int) {
    forall k :: 0 <= k < |RequestsOf(s.history, id)| ==> RequestsOf(s.history, id)[k].eventId in effects
  }

  lemma DeliveredReachesLast(
    s: OrderSource.Source, effects: InboxTables.Effects, orders: InboxTables.Orders, id: int)
    requires Inv(s) && id in s.orders && s.orders[id].partnerSequence > 0 && AllDelivered(s, effects, id)
    requires DeliveryInvariant.LedgerOk(Catalogue(s.history), effects, orders)
    ensures LastSequence(orders, OrderKey(s.orders[id].sellerId, id)) >= s.orders[id].partnerSequence
  {
    var requests := RequestsOf(s.history, id);
    assert OrderOk(s, id);
    var n := |requests| - 1;
    RequestsComeFromLog(s.history, id, n);
    var i :| 0 <= i < |s.history| && s.history[i] == requests[n] && s.history[i].orderId == id;
    HistoryIsWellNumbered(s);
    assert Known(Catalogue(s.history), requests[n]);
    hide Inv, Catalogue, RequestsOf, Spells;
    assert effects[requests[n].eventId] == requests[n];
  }

  lemma LedgersOfInv(cfg: DeliveryProtocol.Config, world: DeliveryProtocol.World)
    requires DeliveryInvariant.Inv(cfg, world)
    ensures DeliveryInvariant.LedgerOk(cfg.catalogue, world.effects, world.orders)
    ensures DeliveryInvariant.LedgerOk(cfg.catalogue, world.seller.effects, world.seller.orders)
    ensures forall key :: LastSequence(world.orders, key) <= LastSequence(world.seller.orders, key)
  {
    hide DeliveryInvariant.LedgerOk;
  }

  /**
   * Once every request of an order has been delivered, whatever happened on the way, the partner's row of the
   * order and the seller's are the order as the source has it: its number, what became of it, and the quantity and
   * price that its user asked for last.
   */
  lemma BothEndsAgree(
    start: OrderSource.Source, source: seq<OrderSource.Step>, cfg: DeliveryProtocol.Config, clock: int,
    run: seq<DeliveryProtocol.Step>, id: int)
    requires OrderSource.IsStart(start) && OrderSource.IsRun(start, source)
    requires Receives(cfg, OrderSource.End(start, source))
    requires DeliveryProtocol.IsRun(cfg, DeliveryProtocol.Initial(clock), run)
    requires var s, world :=
               OrderSource.End(start, source), DeliveryProtocol.End(cfg, DeliveryProtocol.Initial(clock), run);
             id in s.orders && s.orders[id].partnerSequence > 0 && AllDelivered(s, world.effects, id)
    ensures var s, world :=
              OrderSource.End(start, source), DeliveryProtocol.End(cfg, DeliveryProtocol.Initial(clock), run);
            var key, row := OrderKey(s.orders[id].sellerId, id), OrderContents.FinalRow(s.orders[id]);
            && key in world.orders && world.orders[key] == row
            && key in world.seller.orders && world.seller.orders[key] == row
  {
    StartInv(start);
    RunKeepsInv(start, source);
    OrderContents.LastRequestIsTheOrder(start, source, id);
    SourceFeedsProtocol(start, source, cfg);
    DeliveryTheorems.ReachableInv(cfg, clock, run);
    var s, world := OrderSource.End(start, source), DeliveryProtocol.End(cfg, DeliveryProtocol.Initial(clock), run);
    LedgersOfInv(cfg, world);
    hide OrderSource.IsStart, OrderSource.IsRun, OrderSource.End, DeliveryProtocol.IsRun, DeliveryProtocol.End,
      DeliveryInvariant.Inv, DeliveryInvariant.LedgerOk, Inv, OrderContents.SaysHowItStands, OrderContents.FinalRow,
      AllDelivered, Catalogue;
    DeliveredReachesLast(s, world.effects, world.orders, id);
    LedgerHasFinalRow(s, world.effects, world.orders, id);
    LedgerHasFinalRow(s, world.seller.effects, world.seller.orders, id);
  }
}
