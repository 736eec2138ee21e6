/** Laws of whole runs of one matching engine: any sequence of orders and cancels. */
module EngineRuns {
  import opened Options
  import opened TradingTypes
  import opened Ticks
  import opened PriceTime

  datatype Request = Place(order: Order) | Cancel(orderId: OrderId)

  /** The book, every event so far, and every order ever placed, as it was placed. */
  datatype EngineState = EngineState(book: seq<Order>, log: seq<FillEvent>, placed: map<OrderId, Order>)

  function Step(prod: bool, s: EngineState, r: Request): EngineState {
    match r
    case Place(o) =>
      var done := Submit(prod, s.book, o);
      EngineState(done.book, s.log + done.events, s.placed[o.orderId := o])
    case Cancel(id) => s.(book := Without(s.book, id))
  }

  function Run(prod: bool, rs: seq<Request>): EngineState {
    if rs == [] then EngineState([], [], map[])
    else Step(prod, Run(prod, rs[..|rs| - 1]), rs[|rs| - 1])
  }

  /** Placed orders are accepted, untraded, and have ids never used before. */
  ghost predicate Lawful(prod: bool, rs: seq<Request>) {
    rs == [] ||
    var before, r := rs[..|rs| - 1], rs[|rs| - 1];
    Lawful(prod, before) &&
    (r.Place? ==> r.order.orderId !in Run(prod, before).placed &&
                  r.order.qtyRemaining == r.order.qty && r.order.status == Accepted)
  }

  // ----- Quantities

  /** The quantity an order has been told it traded. */
  function Filled(log: seq<FillEvent>, id: OrderId): nat {
    if log == [] then 0
    else
      var last := log[|log| - 1];
      Filled(log[..|log| - 1], id) + if last.snapshot.orderId == id then last.qty else 0
  }

  /** The quantity all orders of one side have been told they traded. */
  function SideTotal(log: seq<FillEvent>, placed: map<OrderId, Order>, side: SideType): nat {
    if log == [] then 0
    else
      var last := log[|log| - 1];
      SideTotal(log[..|log| - 1], placed, side) +
      if last.snapshot.orderId in placed && placed[last.snapshot.orderId].side == side then last.qty else 0
  }

  /** Every event states what its order has left after all that was announced for it. */
  ghost predicate Running(log: seq<FillEvent>, placed: map<OrderId, Order>) {
    log == [] ||
    var last := log[|log| - 1];
    && Running(log[..|log| - 1], placed)
    && last.snapshot.orderId in placed && last.snapshot.qty == placed[last.snapshot.orderId].qty
    && last.snapshot.qtyRemaining + Filled(log, last.snapshot.orderId) == last.snapshot.qty
  }

  /** An order is one that was placed, up to what it has left and its status. */
  predicate Known(o: Order, placed: map<OrderId, Order>) {
    o.orderId in placed &&
    var was := placed[o.orderId]; was == o.(qtyRemaining := was.qtyRemaining, status := was.status)
  }

  predicate Balanced(o: Order, log: seq<FillEvent>, unannounced: nat) {
    o.qtyRemaining + Filled(log, o.orderId) + unannounced == o.qty
  }

  ghost predicate BookBalanced(book: seq<Order>, log: seq<FillEvent>, placed: map<OrderId, Order>) {
    forall i :: 0 <= i < |book| ==> Known(book[i], placed) && Balanced(book[i], log, 0)
  }

  /** Quantity is conserved: order by order, and between the two sides. */
  ghost predicate Conserved(book: seq<Order>, log: seq<FillEvent>, placed: map<OrderId, Order>) {
    && UniqueIds(book)
    && BookBalanced(book, log, placed)
    && Running(log, placed)
    && SideTotal(log, placed, BUY) == SideTotal(log, placed, SELL)
  }

  function PendingQty(pending: Option<Pending>): nat {
    if pending.None? then 0 else pending.value.qty
  }

  /** The same in the middle of a match, when the incoming order's last fills are not yet announced. */
  ghost predicate MidConserved(book: seq<Order>, log: seq<FillEvent>, placed: map<OrderId, Order>,
                               aggr: Order, pending: Option<Pending>) {
    && UniqueIds(book + [aggr])
    && BookBalanced(book, log, placed)
    && Known(aggr, placed) && Balanced(aggr, log, PendingQty(pending))
    && Running(log, placed)
    && SideTotal(log, placed, Opposite(aggr.side)) == SideTotal(log, placed, aggr.side) + PendingQty(pending)
    && (pending.Some? ==> pending.value.aggr == aggr)
  }

  lemma Appended(log: seq<FillEvent>, e: FillEvent, id: OrderId, placed: map<OrderId, Order>, side: SideType)
    ensures Filled(log + [e], id) == Filled(log, id) + if e.snapshot.orderId == id then e.qty else 0
    ensures SideTotal(log + [e], placed, side) ==
      SideTotal(log, placed, side) + if e.snapshot.orderId in placed && placed[e.snapshot.orderId].side == side
        then e.qty else 0
    ensures Running(log + [e], placed) <==>
      && Running(log, placed) && e.snapshot.orderId in placed && e.snapshot.qty == placed[e.snapshot.orderId].qty
      && e.snapshot.qtyRemaining + Filled(log, e.snapshot.orderId) + e.qty == e.snapshot.qty
  {
    assert (log + [e])[..|log|] == log;
  }

  // Announcing what is pending settles it.
  lemma FlushConserves(book: seq<Order>, log: seq<FillEvent>, placed: map<OrderId, Order>, aggr: Order,
                       pending: Option<Pending>)
    requires MidConserved(book, log, placed, aggr, pending)
    ensures MidConserved(book, log + Flush(pending), placed, aggr, None)
  {
    var flush := Flush(pending);
    if flush == [] {
      assert log + flush == log;
    } else {
      var e := flush[0];
      assert flush == [e] && e.snapshot.orderId == aggr.orderId && e.qty == PendingQty(pending);
      Appended(log, e, aggr.orderId, placed, aggr.side);
      Appended(log, e, aggr.orderId, placed, Opposite(aggr.side));
      forall i | 0 <= i < |book|
        ensures Balanced(book[i], log + [e], 0)
      {
        assert (book + [aggr])[i].orderId != (book + [aggr])[|book|].orderId;
        Appended(log, e, book[i].orderId, placed, aggr.side);
      }
    }
  }

  // One trade: the resting order's fill is announced at once, the incoming order's is pending.
  lemma TradeConserves(book: seq<Order>, log: seq<FillEvent>, placed: map<OrderId, Order>, aggr: Order,
                       pending: Option<Pending>, p: nat)
    requires MidConserved(book, log, placed, aggr, pending) && p < |book| && book[p].side == Opposite(aggr.side)
    ensures
      var q := TradeQty(book, aggr, p);
      var t := Trade(book[p], q, Fill(aggr, q));
      MidConserved(AfterTrade(book, p, q), log + (FlushBefore(pending, t) + [RestingEvent(t)]), placed, t.aggr,
        Some(Extend(pending, t)))
  {
    var q := TradeQty(book, aggr, p);
    var t := Trade(book[p], q, Fill(aggr, q));
    var same := pending.Some? && pending.value.level == t.TradeLevel();
    var log1, pending1 := log + FlushBefore(pending, t), if same then pending else None;
    if same {
      assert log1 == log;
    } else {
      FlushConserves(book, log, placed, aggr, pending);
    }
    assert log + (FlushBefore(pending, t) + [RestingEvent(t)]) == log1 + [RestingEvent(t)];
    FillConserves(book, log1, placed, aggr, pending1, p, t.TradeLevel());
  }

  lemma FillConserves(book: seq<Order>, log: seq<FillEvent>, placed: map<OrderId, Order>, aggr: Order,
                      pending: Option<Pending>, p: nat, level: int)
    requires MidConserved(book, log, placed, aggr, pending) && p < |book| && book[p].side == Opposite(aggr.side)
    ensures
      var q := TradeQty(book, aggr, p);
      var t := Trade(book[p], q, Fill(aggr, q));
      MidConserved(AfterTrade(book, p, q), log + [RestingEvent(t)], placed, t.aggr,
        Some(Pending(level, PendingQty(pending) + q, t.aggr)))
  {
    var q := TradeQty(book, aggr, p);
    var t := Trade(book[p], q, Fill(aggr, q));
    var e, book' := RestingEvent(t), AfterTrade(book, p, q);
    assert e.snapshot.orderId == book[p].orderId && e.qty == q;
    Appended(log, e, aggr.orderId, placed, aggr.side);
    Appended(log, e, aggr.orderId, placed, Opposite(aggr.side));
    assert (book + [aggr])[p].orderId != (book + [aggr])[|book|].orderId;
    BookStaysBalanced(book, log, placed, aggr, p, q, e);
    UniqueAfterTrade(book, p, q, aggr, t.aggr);
    hide Running, Filled, SideTotal, UniqueIds, BookBalanced;
  }

  // The fill of one resting order settles that order's account and leaves the others'.
  lemma BookStaysBalanced(book: seq<Order>, log: seq<FillEvent>, placed: map<OrderId, Order>, aggr: Order,
                          p: nat, q: nat, e: FillEvent)
    requires UniqueIds(book + [aggr]) && BookBalanced(book, log, placed)
    requires p < |book| && q <= book[p].qtyRemaining && e.snapshot.orderId == book[p].orderId && e.qty == q
    ensures BookBalanced(AfterTrade(book, p, q), log + [e], placed)
  {
    hide Running, Filled, SideTotal;
    var book' := AfterTrade(book, p, q);
    forall i | 0 <= i < |book'|
      ensures Known(book'[i], placed) && Balanced(book'[i], log + [e], 0)
    {
      var j := if |book'| == |book| || i < p then i else i + 1;
      assert book'[i].orderId == book[j].orderId;
      assert j != p ==> (book + [aggr])[j].orderId != (book + [aggr])[p].orderId;
      Appended(log, e, book[j].orderId, placed, BUY);
    }
  }

  lemma UniqueAfterTrade(book: seq<Order>, p: nat, q: nat, aggr: Order, aggr': Order)
    requires p < |book| && q <= book[p].qtyRemaining && UniqueIds(book + [aggr]) && aggr'.orderId == aggr.orderId
    ensures UniqueIds(AfterTrade(book, p, q) + [aggr'])
  {
    var all, all' := book + [aggr], AfterTrade(book, p, q) + [aggr'];
    forall i | 0 <= i < |all'|
      ensures all'[i].orderId == all[if |all'| == |all| || i < p then i else i + 1].orderId
    {
    }
  }

  // What is left at the end of a match settles the books.
  lemma FinishConserves(book: seq<Order>, log: seq<FillEvent>, placed: map<OrderId, Order>, aggr: Order, traded: bool)
    requires MidConserved(book, log, placed, aggr, None)
    ensures var last := Finish(book, aggr, traded); Conserved(last.book, log + last.events, placed)
  {
    hide Running, Filled, SideTotal;
    var last := Finish(book, aggr, traded);
    assert forall i :: 0 <= i < |book| ==> (book + [aggr])[i] == book[i];
    assert UniqueIds(book);
    if last.events == [] {
      assert log + last.events == log;
    } else {
      var e := last.events[0];
      assert last.events == [e];
      Appended(log, e, aggr.orderId, placed, BUY);
      Appended(log, e, aggr.orderId, placed, SELL);
      forall i | 0 <= i < |book|
        ensures Balanced(book[i], log + [e], 0)
      {
        Appended(log, e, book[i].orderId, placed, BUY);
      }
    }
  }

  lemma {:induction false} ResumeConserves(prod: bool, book: seq<Order>, log: seq<FillEvent>, placed: map<OrderId,
                                           Order>,
                                           aggr: Order, pending: Option<Pending>, traded: bool)
    requires MidConserved(book, log, placed, aggr, pending)
    ensures var r := Resume(prod, book, aggr, pending, traded); Conserved(r.book, log + r.events, placed)
    decreases |book|
  {
    hide MidConserved, Conserved, Resume;
    var best := Best(prod, book, aggr);
    if best.None? {
      ResumeEnd(prod, book, aggr, pending, traded);
      FlushConserves(book, log, placed, aggr, pending);
      FinishConserves(book, log + Flush(pending), placed, aggr, traded);
      var last := Finish(book, aggr, traded);
      assert log + (Flush(pending) + last.events) == (log + Flush(pending)) + last.events;
    } else {
      var p := best.value;
      var q := TradeQty(book, aggr, p);
      var t := Trade(book[p], q, Fill(aggr, q));
      var book', news, ext := AfterTrade(book, p, q), FlushBefore(pending, t) + [RestingEvent(t)],
        Some(Extend(pending, t));
      ResumeTrade(prod, book, aggr, pending, traded, p);
      TradeConserves(book, log, placed, aggr, pending, p);
      if t.aggr.qtyRemaining == 0 {
        FlushConserves(book', log + news, placed, t.aggr, ext);
        FinishConserves(book', log + news + Flush(ext), placed, t.aggr, true);
        assert log + (news + Flush(ext)) == (log + news) + Flush(ext);
        assert log + news + Flush(ext) + [] == log + news + Flush(ext);
      } else {
        ResumeConserves(prod, book', log + news, placed, t.aggr, ext, true);
        var r := Resume(prod, book', t.aggr, ext, true);
        assert log + (news + r.events) == (log + news) + r.events;
      }
    }
  }

  lemma NewOrderUnknown(log: seq<FillEvent>, placed: map<OrderId, Order>, o: Order, side: SideType)
    requires Running(log, placed) && o.orderId !in placed
    ensures Filled(log, o.orderId) == 0
    ensures Running(log, placed[o.orderId := o])
    ensures SideTotal(log, placed[o.orderId := o], side) == SideTotal(log, placed, side)
  {
    if log != [] {
      NewOrderUnknown(log[..|log| - 1], placed, o, side);
    }
  }

  lemma PlaceConserves(prod: bool, s: EngineState, o: Order)
    requires Conserved(s.book, s.log, s.placed)
    requires o.orderId !in s.placed && o.qtyRemaining == o.qty
    ensures var s' := Step(prod, s, Place(o)); Conserved(s'.book, s'.log, s'.placed)
  {
    var placed := s.placed[o.orderId := o];
    NewOrderUnknown(s.log, s.placed, o, BUY);
    NewOrderUnknown(s.log, s.placed, o, SELL);
    assert forall i :: 0 <= i < |s.book| ==> Known(s.book[i], placed);
    assert s.log + [] == s.log;
    assert MidConserved(s.book, s.log, placed, o, None);
    ResumeConserves(prod, s.book, s.log, placed, o, None, false);
  }

  lemma CancelConserves(s: EngineState, id: OrderId)
    requires Conserved(s.book, s.log, s.placed)
    ensures Conserved(Without(s.book, id), s.log, s.placed)
  {
    WithoutIsPart(s.book, id);
  }

  lemma WithoutIsPart(book: seq<Order>, id: OrderId)
    requires UniqueIds(book)
    ensures UniqueIds(Without(book, id))
    ensures forall i :: 0 <= i < |Without(book, id)| ==>
      Without(book, id)[i] in book && Without(book, id)[i].orderId != id
  {
    if p :| 0 <= p < |book| && book[p].orderId == id {
      WithoutAt(book, p);
    } else {
      WithoutAbsent(book, id);
    }
  }

  // Whatever is placed and cancelled: every order's quantity is what it has left plus what it
  // was told it traded, and the buyers were told the same total as the sellers.
  lemma {:induction false} QuantityIsConserved(prod: bool, rs: seq<Request>)
    requires Lawful(prod, rs)
    ensures var s := Run(prod, rs); Conserved(s.book, s.log, s.placed)
  {
    if rs != [] {
      var before, r := rs[..|rs| - 1], rs[|rs| - 1];
      QuantityIsConserved(prod, before);
      var s := Run(prod, before);
      hide Conserved;
      match r
      case Place(o) => PlaceConserves(prod, s, o);
      case Cancel(id) => CancelConserves(s, id);
    }
  }
}
