/**
 * What becomes of an order: the whole book after a submission in closed form, and every limit order of a run
 * accounted for.
 */
module RestLaws {
  import opened Options
  import opened TradingTypes
  import opened PriceTime
  import opened PriceTimeLaws
  import opened EngineRuns

  // ----- One order

  lemma {:induction false} TradedStatus(prod: bool, book: seq<Order>, aggr: Order)
    ensures
      var m := Match(prod, book, aggr);
      && (m.trades == [] <==> Best(prod, book, aggr).None?)
      && (m.trades != [] ==> m.aggr.status == if m.aggr.qtyRemaining == 0 then Filled else PartiallyFilled)
    decreases |book|
  {
    var best := Best(prod, book, aggr);
    if best.Some? {
      var q := TradeQty(book, aggr, best.value);
      if q < aggr.qtyRemaining {
        TradedStatus(prod, AfterTrade(book, best.value, q), Fill(aggr, q));
      }
    }
  }

  /**
   * What of an order comes to rest: a limit order's rest, if there is any or it met no order that it may trade
   * with.
   */
  function Remainder(prod: bool, book: seq<Order>, o: Order): seq<Order> {
    var eligible, met := EligibleQty(prod, book, o), Best(prod, book, o).Some?;
    if o.priceType.LIMIT? && (eligible < o.qty || !met)
    then [o.(qtyRemaining := o.qty - Min(o.qty, eligible), status := if met then PartiallyFilled else o.status)]
    else []
  }

  /**
   * The whole book after any new order has come in: every order of the old book with its allocation traded, and then
   * what of the new order comes to rest.
   */
  lemma SubmitRests(prod: bool, book: seq<Order>, o: Order)
    requires o.qtyRemaining == o.qty
    ensures Submit(prod, book, o).book == AllocatedBook(prod, book, o, |book|) + Remainder(prod, book, o)
  {
    hide Match, AllocatedBook, EligibleQty, Best, Render;
    MatchAllocates(prod, book, o);
    MatchTradesAllItCan(prod, book, o);
    TradedStatus(prod, book, o);
    if o.priceType.MARKET? && NoOpposite(book, o) {
      NothingOpposite(prod, book, o);
      assert Match(prod, book, o).book == book;
    }
    var m := Match(prod, book, o);
    assert m.book + [] == m.book;
  }

  lemma NothingOpposite(prod: bool, book: seq<Order>, o: Order)
    requires NoOpposite(book, o)
    ensures Best(prod, book, o).None?
  {
  }

  // ----- All orders of a run

  /** A limit order that was placed rests, or was told that all of it traded, or was cancelled. */
  ghost predicate Accounted(book: seq<Order>, log: seq<FillEvent>, placed: map<OrderId, Order>, gone: set<OrderId>,
                            id: OrderId) {
    id in placed && placed[id].priceType.LIMIT? ==>
      Resting(book, id) || EngineRuns.Filled(log, id) == placed[id].qty || id in gone
  }

  ghost predicate AllAccounted(book: seq<Order>, log: seq<FillEvent>, placed: map<OrderId, Order>, gone: set<OrderId>) {
    forall id :: Accounted(book, log, placed, gone, id)
  }

  /** In the middle of a match: all but the incoming order. */
  ghost predicate OthersAccounted(book: seq<Order>, log: seq<FillEvent>, placed: map<OrderId, Order>,
                                  gone: set<OrderId>,
                                  aggr: Order) {
    forall id :: id != aggr.orderId ==> Accounted(book, log, placed, gone, id)
  }

  lemma FlushAccounts(book: seq<Order>, log: seq<FillEvent>, placed: map<OrderId, Order>, gone: set<OrderId>,
                      aggr: Order, pending: Option<Pending>)
    requires OthersAccounted(book, log, placed, gone, aggr) && (pending.Some? ==> pending.value.aggr == aggr)
    ensures OthersAccounted(book, log + Flush(pending), placed, gone, aggr)
  {
    var flush := Flush(pending);
    if flush == [] {
      assert log + flush == log;
    } else {
      assert flush == [flush[0]] && flush[0].snapshot.orderId == aggr.orderId;
      hide Resting, EngineRuns.Filled, Flush;
      forall id | id != aggr.orderId
        ensures Accounted(book, log + flush, placed, gone, id)
      {
        Appended(log, flush[0], id, placed, BUY);
        assert Accounted(book, log, placed, gone, id);
      }
    }
  }

  /** A resting order that a trade removes has traded all of its quantity. */
  lemma TradeAccounts(book: seq<Order>, log: seq<FillEvent>, placed: map<OrderId, Order>, gone: set<OrderId>,
                      aggr: Order,
                      p: nat, q: nat, e: FillEvent)
    requires OthersAccounted(book, log, placed, gone, aggr) && BookBalanced(book, log, placed)
    requires p < |book| && q <= book[p].qtyRemaining && e.snapshot.orderId == book[p].orderId && e.qty == q
    ensures OthersAccounted(AfterTrade(book, p, q), log + [e], placed, gone, aggr)
  {
    var book' := AfterTrade(book, p, q);
    assert Known(book[p], placed) && Balanced(book[p], log, 0);
    forall id | id != aggr.orderId
      ensures Accounted(book', log + [e], placed, gone, id)
    {
      Appended(log, e, id, placed, BUY);
      assert Accounted(book, log, placed, gone, id);
      StillRests(book, p, q, id);
      hide Resting, EngineRuns.Filled, AfterTrade;
    }
  }

  lemma StillRests(book: seq<Order>, p: nat, q: nat, id: OrderId)
    requires p < |book| && q <= book[p].qtyRemaining
    ensures Resting(book, id) && (id != book[p].orderId || q != book[p].qtyRemaining) ==>
      Resting(AfterTrade(book, p, q), id)
  {
    if i :| 0 <= i < |book| && book[i].orderId == id && (i != p || q != book[p].qtyRemaining) {
      var book' := AfterTrade(book, p, q);
      assert book'[if |book'| == |book| || i < p then i else i - 1].orderId == id;
    }
  }

  lemma FinishAccounts(book: seq<Order>, log: seq<FillEvent>, placed: map<OrderId, Order>, gone: set<OrderId>,
                       aggr: Order,
                       traded: bool)
    requires OthersAccounted(book, log, placed, gone, aggr)
    requires Known(aggr, placed) && Balanced(aggr, log, 0)
    ensures var last := Finish(book, aggr, traded); AllAccounted(last.book, log + last.events, placed, gone)
  {
    var last := Finish(book, aggr, traded);
    forall id
      ensures Accounted(last.book, log + last.events, placed, gone, id)
    {
      assert id != aggr.orderId ==> Accounted(book, log, placed, gone, id);
      FinishKeeps(book, log, placed, aggr, traded, id);
      if id == aggr.orderId && aggr.priceType.LIMIT? && !(traded && aggr.qtyRemaining == 0) {
        assert (book + [aggr])[|book|].orderId == id;
      }
      hide EngineRuns.Filled;
    }
  }

  lemma FinishKeeps(book: seq<Order>, log: seq<FillEvent>, placed: map<OrderId, Order>, aggr: Order, traded: bool,
                    id: OrderId)
    ensures
      var last := Finish(book, aggr, traded);
      && EngineRuns.Filled(log + last.events, id) == EngineRuns.Filled(log, id)
      && (Resting(book, id) ==> Resting(last.book, id))
  {
    var last := Finish(book, aggr, traded);
    if last.events == [] {
      assert log + last.events == log;
    } else {
      assert last.events == [last.events[0]];
      Appended(log, last.events[0], id, placed, BUY);
    }
    if i :| 0 <= i < |book| && book[i].orderId == id {
      assert last.book[i].orderId == id;
    }
  }

  lemma {:induction false} ResumeAccounts(prod: bool, book: seq<Order>, log: seq<FillEvent>, placed: map<OrderId,
                                          Order>,
                                          gone: set<OrderId>, aggr: Order, pending: Option<Pending>, traded: bool)
    requires MidConserved(book, log, placed, aggr, pending) && OthersAccounted(book, log, placed, gone, aggr)
    ensures
      var r := Resume(prod, book, aggr, pending, traded);
      AllAccounted(r.book, log + r.events, placed, gone)
    decreases |book|
  {
    var best := Best(prod, book, aggr);
    assert best.Some? ==> best.value < |book| && book[best.value].side == Opposite(aggr.side);
    hide MidConserved, OthersAccounted, AllAccounted, Resume, Best, IsBest, AfterTrade, Flush, Finish, RestingEvent;
    if best.None? {
      ResumeEnd(prod, book, aggr, pending, traded);
      EndAccounts(book, log, placed, gone, aggr, pending, traded);
      Regroup(log, Flush(pending), Finish(book, aggr, traded).events);
    } else {
      var p := best.value;
      var q := TradeQty(book, aggr, p);
      var t := Trade(book[p], q, Fill(aggr, q));
      var book', news := AfterTrade(book, p, q), FlushBefore(pending, t) + [RestingEvent(t)];
      var ext := Some(Extend(pending, t));
      ResumeTrade(prod, book, aggr, pending, traded, p);
      TradeConserves(book, log, placed, aggr, pending, p);
      NewsAccount(book, log, placed, gone, aggr, pending, p);
      hide FlushBefore, Extend, TradeQty;
      if t.aggr.qtyRemaining == 0 {
        LastAccounts(book', log, news, placed, gone, t.aggr, ext);
      } else {
        ResumeAccounts(prod, book', log + news, placed, gone, t.aggr, ext, true);
        Regroup(log, news, Resume(prod, book', t.aggr, ext, true).events);
      }
    }
  }

  lemma Regroup(a: seq<FillEvent>, b: seq<FillEvent>, c: seq<FillEvent>)
    ensures (a + b) + c == a + (b + c)
  {
  }

  lemma LastAccounts(book: seq<Order>, log: seq<FillEvent>, news: seq<FillEvent>, placed: map<OrderId, Order>,
                     gone: set<OrderId>, aggr: Order, pending: Option<Pending>)
    requires MidConserved(book, log + news, placed, aggr, pending)
    requires OthersAccounted(book, log + news, placed, gone, aggr) && aggr.qtyRemaining == 0
    ensures AllAccounted(book, log + (news + Flush(pending)), placed, gone)
  {
    hide MidConserved, OthersAccounted, AllAccounted, Flush;
    EndAccounts(book, log + news, placed, gone, aggr, pending, true);
    FilledIsDropped(book, aggr);
    Regroup(log, news, Flush(pending));
    assert log + (news + Flush(pending)) + [] == log + (news + Flush(pending));
  }

  lemma FilledIsDropped(book: seq<Order>, aggr: Order)
    requires aggr.qtyRemaining == 0
    ensures Finish(book, aggr, true) == Result(book, [])
  {
  }

  lemma EndAccounts(book: seq<Order>, log: seq<FillEvent>, placed: map<OrderId, Order>, gone: set<OrderId>,
                    aggr: Order, pending: Option<Pending>, traded: bool)
    requires MidConserved(book, log, placed, aggr, pending) && OthersAccounted(book, log, placed, gone, aggr)
    ensures
      var last := Finish(book, aggr, traded);
      AllAccounted(last.book, log + Flush(pending) + last.events, placed, gone)
  {
    FlushConserves(book, log, placed, aggr, pending);
    FlushAccounts(book, log, placed, gone, aggr, pending);
    FinishAccounts(book, log + Flush(pending), placed, gone, aggr, traded);
    hide OthersAccounted, AllAccounted, Running, UniqueIds, BookBalanced, EngineRuns.Filled, SideTotal, Finish, Flush;
  }

  lemma NewsAccount(book: seq<Order>, log: seq<FillEvent>, placed: map<OrderId, Order>, gone: set<OrderId>, aggr: Order,
                    pending: Option<Pending>, p: nat)
    requires MidConserved(book, log, placed, aggr, pending) && OthersAccounted(book, log, placed, gone, aggr)
    requires p < |book|
    ensures
      var q := TradeQty(book, aggr, p);
      var t := Trade(book[p], q, Fill(aggr, q));
      OthersAccounted(AfterTrade(book, p, q), log + (FlushBefore(pending, t) + [RestingEvent(t)]), placed, gone, t.aggr)
  {
    hide OthersAccounted, Running, UniqueIds, BookBalanced, EngineRuns.Filled, SideTotal, AfterTrade;
    var q := TradeQty(book, aggr, p);
    var t := Trade(book[p], q, Fill(aggr, q));
    var before := FlushBefore(pending, t);
    if before == [] {
      assert log + before == log;
    } else {
      FlushConserves(book, log, placed, aggr, pending);
      FlushAccounts(book, log, placed, gone, aggr, pending);
    }
    TradeAccounts(book, log + before, placed, gone, aggr, p, q, RestingEvent(t));
    SameOthers(AfterTrade(book, p, q), log + before + [RestingEvent(t)], placed, gone, aggr, t.aggr);
    assert log + (before + [RestingEvent(t)]) == log + before + [RestingEvent(t)];
  }

  lemma SameOthers(book: seq<Order>, log: seq<FillEvent>, placed: map<OrderId, Order>, gone: set<OrderId>, aggr: Order,
                   aggr': Order)
    requires OthersAccounted(book, log, placed, gone, aggr) && aggr'.orderId == aggr.orderId
    ensures OthersAccounted(book, log, placed, gone, aggr')
  {
  }

  /** The orders that were cancelled while they rested. */
  function Cancelled(prod: bool, rs: seq<Request>): set<OrderId> {
    if rs == [] then {}
    else
      var before, r := rs[..|rs| - 1], rs[|rs| - 1];
      Cancelled(prod, before) +
      if r.Cancel? && Resting(Run(prod, before).book, r.orderId) then {r.orderId} else {}
  }

  lemma CancelAccounts(s: EngineState, gone: set<OrderId>, id: OrderId)
    requires AllAccounted(s.book, s.log, s.placed, gone) && UniqueIds(s.book)
    ensures
      AllAccounted(Without(s.book, id), s.log, s.placed, gone + if Resting(s.book, id) then {id} else {})
  {
    var gone' := gone + if Resting(s.book, id) then {id} else {};
    forall other
      ensures Accounted(Without(s.book, id), s.log, s.placed, gone', other)
    {
      assert Accounted(s.book, s.log, s.placed, gone, other);
      OthersStayResting(s.book, id, other);
    }
  }

  lemma OthersStayResting(book: seq<Order>, id: OrderId, other: OrderId)
    ensures other != id && Resting(book, other) ==> Resting(Without(book, id), other)
  {
    if book != [] {
      OthersStayResting(book[1..], id, other);
      if i :| 0 <= i < |book| && book[i].orderId == other && other != id {
        if i > 0 {
          assert book[1..][i - 1].orderId == other;
          var k :| 0 <= k < |Without(book[1..], id)| && Without(book[1..], id)[k].orderId == other;
          if book[0].orderId != id {
            assert Without(book, id)[k + 1].orderId == other;
          }
        } else {
          assert Without(book, id)[0].orderId == other;
        }
      }
    }
  }

  lemma PlaceAccounts(prod: bool, s: EngineState, o: Order, gone: set<OrderId>)
    requires Conserved(s.book, s.log, s.placed) && AllAccounted(s.book, s.log, s.placed, gone)
    requires o.orderId !in s.placed && o.qtyRemaining == o.qty
    ensures
      var s' := Step(prod, s, Place(o));
      AllAccounted(s'.book, s'.log, s'.placed, gone)
  {
    var placed := s.placed[o.orderId := o];
    NewOrderUnknown(s.log, s.placed, o, BUY);
    NewOrderUnknown(s.log, s.placed, o, SELL);
    assert forall i :: 0 <= i < |s.book| ==> Known(s.book[i], placed);
    assert s.log + [] == s.log;
    assert MidConserved(s.book, s.log, placed, o, None);
    assert OthersAccounted(s.book, s.log, placed, gone, o) by {
      forall id | id != o.orderId
        ensures Accounted(s.book, s.log, placed, gone, id)
      {
        assert Accounted(s.book, s.log, s.placed, gone, id);
      }
    }
    hide MidConserved, OthersAccounted, Accounted, EngineRuns.Filled;
    if o.priceType.MARKET? && NoOpposite(s.book, o) {
      MarketIsAccounted(s.book, s.log, placed, gone, o);
    } else {
      ResumeAccounts(prod, s.book, s.log, placed, gone, o, None, false);
    }
  }

  lemma MarketIsAccounted(book: seq<Order>, log: seq<FillEvent>, placed: map<OrderId, Order>, gone: set<OrderId>,
                          o: Order)
    requires OthersAccounted(book, log, placed, gone, o) && o.orderId in placed && placed[o.orderId].priceType.MARKET?
    ensures AllAccounted(book, log, placed, gone)
  {
    forall id
      ensures Accounted(book, log, placed, gone, id)
    {
      assert id != o.orderId ==> Accounted(book, log, placed, gone, id);
    }
  }

  /**
   * In every run, every limit order ever placed rests, or was told that all of it traded, or was cancelled as it
   * rested.
   */
  lemma {:induction false} EveryLimitOrderIsAccounted(prod: bool, rs: seq<Request>)
    requires Lawful(prod, rs)
    ensures var s := Run(prod, rs); AllAccounted(s.book, s.log, s.placed, Cancelled(prod, rs))
  {
    if rs != [] {
      var before, r := rs[..|rs| - 1], rs[|rs| - 1];
      EveryLimitOrderIsAccounted(prod, before);
      QuantityIsConserved(prod, before);
      var s := Run(prod, before);
      assert UniqueIds(s.book);
      hide Conserved, AllAccounted, Submit, UniqueIds;
      match r
      case Place(o) =>
        PlaceAccounts(prod, s, o, Cancelled(prod, before));
        assert Cancelled(prod, before) + {} == Cancelled(prod, before);
      case Cancel(id) => CancelAccounts(s, Cancelled(prod, before), id);
    }
  }
}
