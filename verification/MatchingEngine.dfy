/** The matching engine: price levels in two arrays, updated in place. */
module MatchingEngines {
  import opened Options
  import opened TradingTypes
  import opened Ticks
  import opened PriceTime
  import opened ExchangeOrders

  const NO_BID: Price := -1.0
  const NO_ASK: Price := -1.0

  // What the cast to an unsigned 64-bit index makes of an integer.
  function AsSize(x: int): nat {
    x % 0x1_0000_0000_0000_0000
  }

  lemma AsSizeOfIndex(x: int)
    ensures 0 <= x < NUM_LEVELS ==> AsSize(x) == x
  {
    LevelCount();
  }

  class MatchingEngine {
    const isProduction: bool // self-trades are skipped
    const bids: array<seq<ExchangeOrder>>
    const asks: array<seq<ExchangeOrder>>
    var bestBid: Price
    var bestAsk: Price
    var lookup: map<OrderId, ExchangeOrder> // an iterator is the order its node holds
    var fillEvents: seq<FillEvent>
    ghost var resting: seq<ExchangeOrder> // every order in the book, in arrival order

    /** The book as the flat specification sees it. */
    ghost function Book(): seq<Order>
      reads `resting, resting
    {
      Values(resting)
    }

    ghost predicate Levels()
      reads `resting, bids, asks
    {
      && bids != asks && bids.Length == NUM_LEVELS && asks.Length == NUM_LEVELS
      && AllOnGrid(resting)
      && LevelsAgree(resting, bids[..], BUY)
      && LevelsAgree(resting, asks[..], SELL)
    }

    ghost predicate Lookups()
      reads `resting, `lookup
    {
      DistinctIds(resting) && IndexAgrees(resting, lookup)
    }

    ghost predicate Indexed()
      reads `resting, `lookup, bids, asks, resting
    {
      Levels() && Lookups() && RestingStates(Book())
    }

    predicate CanTrade(aggr: ExchangeOrder, o: ExchangeOrder)
    {
      && o.side != aggr.side
      && (aggr.priceType.MARKET? || if aggr.side.SELL? then aggr.Index() <= o.Index() else o.Index() <= aggr.Index())
      && (isProduction ==> o.sessionId != aggr.sessionId)
    }

    /** The invariant between two requests. */
    ghost predicate Valid()
      reads `resting, `lookup, `bestBid, `bestAsk, bids, asks, resting
    {
      && Indexed()
      && BestAgrees(Book(), BUY, bestBid, NO_BID)
      && BestAgrees(Book(), SELL, bestAsk, NO_ASK)
    }

    /** One side of the book. */
    function Side(side: SideType): array<seq<ExchangeOrder>> {
      if side.BUY? then bids else asks
    }

    lemma LevelIs(side: SideType, i: int)
      requires Levels() && 0 <= i < NUM_LEVELS
      ensures i < Side(side).Length && Side(side)[i] == LevelOf(resting, side, i)
    {
    }

    static method UpdateQtyAndStatus(aggr: ExchangeOrder, restingOrder: ExchangeOrder, qtyTraded: nat)
      requires aggr != restingOrder
      requires qtyTraded <= aggr.qtyRemaining && qtyTraded <= restingOrder.qtyRemaining
      modifies aggr, restingOrder
      ensures aggr.Value() == Fill(old(aggr.Value()), qtyTraded)
      ensures restingOrder.Value() == Fill(old(restingOrder.Value()), qtyTraded)
    {
      restingOrder.qtyRemaining := restingOrder.qtyRemaining - qtyTraded;
      restingOrder.status := if restingOrder.qtyRemaining == 0 then Filled else PartiallyFilled;
      aggr.qtyRemaining := aggr.qtyRemaining - qtyTraded;
      aggr.status := if aggr.qtyRemaining == 0 then Filled else PartiallyFilled;
    }

    // Erase node k of a level, the order at place p of the arrival order, and its index entry.
    method EraseNode(side: SideType, i: int, k: nat, ghost p: nat)
      requires Levels() && Lookups() && 0 <= i < NUM_LEVELS && k < |Side(side)[i]|
      requires p < |resting| && At(resting[p], side, i) && Rank(resting, p) == k
      requires Side(side)[i][k] == resting[p]
      modifies `lookup, `resting, Side(side)
      ensures Levels() && Lookups()
      ensures resting == Erase(old(resting), p) && lookup.Keys <= old(lookup.Keys)
      ensures Book() == old(Book())[..p] + old(Book())[p + 1..]
    {
      hide LevelsAgree, IndexAgrees, LevelOf, DistinctIds;
      ghost var was, bidsWere, asksWere := resting, bids[..], asks[..];
      LevelsAfterErase(was, bidsWere, BUY, p);
      LevelsAfterErase(was, asksWere, SELL, p);
      IndexAfterErase(was, lookup, p);
      ValuesErase(was, p);
      EraseIsWithin(was, p);
      var levels := Side(side);
      lookup := lookup - {levels[i][k].orderId};
      levels[i] := Erase(levels[i], k);
      resting := Erase(was, p);
      assert bids[..] == if side.BUY? then bidsWere[i := Erase(bidsWere[i], k)] else bidsWere;
      assert asks[..] == if side.SELL? then asksWere[i := Erase(asksWere[i], k)] else asksWere;
    }

    // The quantities and statuses after one trade, and the event of the resting order.
    method RecordTrade(aggr: ExchangeOrder, i: int, restingOrder: ExchangeOrder, ghost p: nat,
                       ghost book: seq<Order>, ghost incoming: Order) returns (qtyTraded: nat)
      requires book == Book() && incoming == aggr.Value()
      requires DistinctIds(resting) && RestingStates(Book()) && aggr !in resting
      requires p < |resting| && restingOrder == resting[p] && restingOrder.Index() == i
      modifies `fillEvents, restingOrder, aggr
      ensures qtyTraded == TradeQty(book, incoming, p)
      ensures aggr.Value() == Fill(incoming, qtyTraded)
      ensures Book() == book[p := Fill(book[p], qtyTraded)]
      ensures fillEvents == old(fillEvents) + [RestingEvent(Trade(book[p], qtyTraded, aggr.Value()))]
    {
      qtyTraded := Min(restingOrder.qtyRemaining, aggr.qtyRemaining);
      var hadPrevFills := restingOrder.status == PartiallyFilled;
      UpdateQtyAndStatus(aggr, restingOrder, qtyTraded);
      var statusChanged := restingOrder.status == Filled || !hadPrevFills;
      fillEvents := fillEvents + [FillEvent(IndexToPrice(i), qtyTraded, Snapshot(restingOrder.Value()), statusChanged)];
    }

    // One trade with the order at node k of a level, which also takes the order out of its
    // level and out of the index when it is filled.
    method TradeWith(aggr: ExchangeOrder, i: int, k: nat, ghost p: nat, ghost book: seq<Order>, ghost incoming: Order)
      returns (qtyTraded: nat, erased: bool)
      requires book == Book() && incoming == aggr.Value()
      requires Indexed() && aggr !in resting && 0 <= i < NUM_LEVELS
      requires k < |Side(Opposite(aggr.side))[i]|
      requires p < |resting| && At(resting[p], Opposite(aggr.side), i) && Rank(resting, p) == k
      requires Side(Opposite(aggr.side))[i][k] == resting[p]
      modifies `lookup, `fillEvents, `resting, Side(Opposite(aggr.side)), resting[p], aggr
      ensures Indexed()
      ensures qtyTraded == TradeQty(book, incoming, p) && aggr.Value() == Fill(incoming, qtyTraded)
      ensures Book() == AfterTrade(book, p, qtyTraded)
      ensures erased <==> qtyTraded == book[p].qtyRemaining
      ensures resting == (if erased then Erase(old(resting), p) else old(resting)) && lookup.Keys <= old(lookup.Keys)
      ensures fillEvents == old(fillEvents) + [RestingEvent(Trade(book[p], qtyTraded, aggr.Value()))]
    {
      LevelIs(Opposite(aggr.side), i);
      hide Levels, Lookups, RestingStates, RestingEvent, LevelOf, TradeQty;
      var restingOrder := Side(Opposite(aggr.side))[i][k];
      qtyTraded := RecordTrade(aggr, i, restingOrder, p, book, incoming);
      erased := restingOrder.qtyRemaining == 0;
      if erased {
        EraseNode(Opposite(aggr.side), i, k, p);
      }
      AfterTradeKeepsStates(book, p, qtyTraded);
    }

    /** No order the incoming one can trade with is at a better level than i. */
    ghost predicate NoneBetter(aggr: ExchangeOrder, s: seq<ExchangeOrder>, i: int)
    {
      forall q :: 0 <= q < |s| && CanTrade(aggr, s[q]) ==> !Better(aggr.side, s[q].Index(), i)
    }

    ghost predicate AllSkipped(aggr: ExchangeOrder, nodes: seq<ExchangeOrder>)
    {
      forall m :: 0 <= m < |nodes| ==> !CanTrade(aggr, nodes[m])
    }

    lemma NoneBetterAfterErase(aggr: ExchangeOrder, s: seq<ExchangeOrder>, i: int, p: nat)
      requires p < |s| && NoneBetter(aggr, s, i)
      ensures NoneBetter(aggr, Erase(s, p), i)
    {
      EraseIsWithin(s, p);
    }

    predicate WithinLimit(aggr: ExchangeOrder, i: int)
    {
      aggr.priceType.MARKET? || if aggr.side.SELL? then aggr.Index() <= i else i <= aggr.Index()
    }

    // When the nodes before node k of the best level cannot trade but node k can, it is the best order.
    lemma NodeIsBest(aggr: ExchangeOrder, i: int, k: nat, p: nat)
      requires NoneBetter(aggr, resting, i) && WithinLimit(aggr, i)
      requires p < |resting| && At(resting[p], Opposite(aggr.side), i) && Rank(resting, p) == k
      requires isProduction ==> resting[p].sessionId != aggr.sessionId
      requires k < |LevelOf(resting, Opposite(aggr.side), i)|
      requires AllSkipped(aggr, LevelOf(resting, Opposite(aggr.side), i)[..k])
      ensures IsBest(isProduction, Book(), aggr.Value(), p)
    {
      var book, a := Book(), aggr.Value();
      forall q | 0 <= q < |book| && Eligible(isProduction, a, book[q])
        ensures Ahead(a.side, book, p, q)
      {
        assert CanTrade(aggr, resting[q]);
        if resting[q].Index() == i && q < p {
          RankInLevel(resting, q);
          RankIsMonotone(resting, q, p);
          assert false;
        }
      }
    }

    // When every node of a level was skipped, no order of the level can trade.
    lemma LevelIsSpent(aggr: ExchangeOrder, i: int)
      requires AllSkipped(aggr, LevelOf(resting, Opposite(aggr.side), i))
      ensures forall q :: 0 <= q < |resting| && CanTrade(aggr, resting[q]) ==> resting[q].Index() != i
    {
      forall q | 0 <= q < |resting| && At(resting[q], Opposite(aggr.side), i)
        ensures !CanTrade(aggr, resting[q])
      {
        RankInLevel(resting, q);
      }
    }

    /** The state of a sweep of level i that has come to node k. */
    ghost predicate AtNode(aggr: ExchangeOrder, i: int, k: nat, qtyTradedAtPrice: nat,
                           tradedHere: bool, traded: bool, total: Result)
      reads `fillEvents, `resting, `lookup, bids, asks, resting, aggr
    {
      && Indexed() && aggr !in resting && aggr.orderId !in lookup && 0 <= i < NUM_LEVELS
      && NoneBetter(aggr, resting, i) && WithinLimit(aggr, i)
      && k <= |Side(Opposite(aggr.side))[i]|
      && AllSkipped(aggr, Side(Opposite(aggr.side))[i][..k])
      && (if tradedHere then traded else qtyTradedAtPrice == 0)
      && (traded ==> aggr.qtyRemaining > 0) && aggr.status in {Accepted, PartiallyFilled}
      && LeadsTo(isProduction, total, fillEvents, Book(), aggr.Value(),
                 if tradedHere then Some(Pending(i, qtyTradedAtPrice, aggr.Value())) else None, traded)
    }

    // Trade with the order of node k, which is now the best one.
    method TradeAtNode(aggr: ExchangeOrder, i: int, k: nat, qtyTradedAtPrice: nat,
                       ghost tradedHere: bool, ghost traded: bool, ghost total: Result)
      returns (next: nat, qtyNow: nat)
      requires AtNode(aggr, i, k, qtyTradedAtPrice, tradedHere, traded, total)
      requires k < |Side(Opposite(aggr.side))[i]| && CanTrade(aggr, Side(Opposite(aggr.side))[i][k])
      modifies `lookup, `fillEvents, `resting, Side(Opposite(aggr.side)), resting, aggr
      ensures Within(resting, old(resting))
      ensures aggr.qtyRemaining > 0 ==> AtNode(aggr, i, next, qtyNow, true, true, total)
      ensures aggr.qtyRemaining > 0 ==>
        next == k && |Side(Opposite(aggr.side))[i]| < old(|Side(Opposite(aggr.side))[i]|)
      ensures aggr.qtyRemaining == 0 ==>
        Indexed() && total == Result(Book(), fillEvents + Flush(Some(Pending(i, qtyNow, aggr.Value()))))
    {
      var levels, side := Side(Opposite(aggr.side)), Opposite(aggr.side);
      LevelIs(side, i);
      hide Levels, Lookups, RestingStates, LeadsTo, IsBest, LevelOf, NoneBetter, AllSkipped, Within, AfterTrade,
        RestingEvent, WithinLimit;
      ghost var p := Locate(resting, side, i, k);
      NodeIsBest(aggr, i, k, p);
      ghost var pending := if tradedHere then Some(Pending(i, qtyTradedAtPrice, aggr.Value())) else None;
      ghost var book, incoming, was, skipped := Book(), aggr.Value(), resting, levels[i][..k];
      LevelOfErase(was, p);
      EraseIsWithin(was, p);
      NoneBetterAfterErase(aggr, was, i, p);
      ghost var sent := fillEvents;
      var qtyTraded, erased := TradeWith(aggr, i, k, p, book, incoming);
      next := if erased then k else k + 1;
      qtyNow := qtyTradedAtPrice + qtyTraded;
      TradeLeadsOn(isProduction, total, sent, book, incoming, pending, traded, p,
                   qtyTraded, aggr.Value(), Pending(i, qtyNow, aggr.Value()));
      if aggr.qtyRemaining > 0 {
        assert erased;
        LevelIs(side, i);
        assert levels[i][..k] == skipped;
      }
    }

    // An order of the incoming order's own session is passed over in production.
    lemma SkipNode(aggr: ExchangeOrder, i: int, k: nat, qtyTradedAtPrice: nat,
                   tradedHere: bool, traded: bool, total: Result)
      requires AtNode(aggr, i, k, qtyTradedAtPrice, tradedHere, traded, total)
      requires k < |Side(Opposite(aggr.side))[i]|
      requires isProduction && Side(Opposite(aggr.side))[i][k].sessionId == aggr.sessionId
      ensures AtNode(aggr, i, k + 1, qtyTradedAtPrice, tradedHere, traded, total)
    {
      var nodes := Side(Opposite(aggr.side))[i];
      hide Levels, Lookups, RestingStates, LeadsTo, NoneBetter, LevelOf;
      assert nodes[..k + 1] == nodes[..k] + [nodes[k]];
    }

    // Any other order of the level can be traded with.
    lemma NodeCanTrade(aggr: ExchangeOrder, i: int, k: nat, qtyTradedAtPrice: nat,
                       tradedHere: bool, traded: bool, total: Result)
      requires AtNode(aggr, i, k, qtyTradedAtPrice, tradedHere, traded, total)
      requires k < |Side(Opposite(aggr.side))[i]|
      requires !(isProduction && Side(Opposite(aggr.side))[i][k].sessionId == aggr.sessionId)
      ensures CanTrade(aggr, Side(Opposite(aggr.side))[i][k])
    {
      LevelIs(Opposite(aggr.side), i);
      hide Levels, Lookups, RestingStates, LeadsTo, NoneBetter, LevelOf;
      assert At(Side(Opposite(aggr.side))[i][k], Opposite(aggr.side), i);
    }

    function LevelNews(aggr: ExchangeOrder, i: int, qtyTradedAtPrice: nat): seq<FillEvent>
      reads aggr
    {
      if qtyTradedAtPrice > 0 then [FillEvent(IndexToPrice(i), qtyTradedAtPrice, Snapshot(aggr.Value()), true)] else []
    }

    // At the end of a level the incoming order's fills at its price are announced together.
    lemma LevelEnd(aggr: ExchangeOrder, i: int, k: nat, qtyTradedAtPrice: nat,
                   tradedHere: bool, traded: bool, total: Result)
      requires AtNode(aggr, i, k, qtyTradedAtPrice, tradedHere, traded, total)
      requires k == |Side(Opposite(aggr.side))[i]|
      ensures LeadsTo(isProduction, total, fillEvents + LevelNews(aggr, i, qtyTradedAtPrice),
                      Book(), aggr.Value(), None, traded)
      ensures forall q :: 0 <= q < |resting| && CanTrade(aggr, resting[q]) ==> resting[q].Index() != i
    {
      LevelIs(Opposite(aggr.side), i);
      hide LeadsTo, Levels, Lookups, RestingStates, LevelOf;
      var nodes := Side(Opposite(aggr.side))[i];
      assert nodes[..k] == nodes;
      LevelIsSpent(aggr, i);
      assert fillEvents + [] == fillEvents;
      if tradedHere {
        FlushLeadsOn(isProduction, total, fillEvents, Book(), aggr.Value(),
                     Pending(i, qtyTradedAtPrice, aggr.Value()), traded);
      }
    }

    // One turn of the inner loop: skip the node, or trade with its order; a trade that fills
    // the incoming order also announces its fills at this price.
    method VisitNode(aggr: ExchangeOrder, i: int, k: nat, qtyTradedAtPrice: nat,
                     ghost tradedHere: bool, ghost traded: bool, ghost total: Result)
      returns (next: nat, qtyNow: nat, done: bool, ghost tradedHereNow: bool, ghost tradedNow: bool)
      requires AtNode(aggr, i, k, qtyTradedAtPrice, tradedHere, traded, total)
      requires k < |Side(Opposite(aggr.side))[i]|
      modifies `lookup, `fillEvents, `resting, Side(Opposite(aggr.side)), resting, aggr
      ensures Within(resting, old(resting))
      ensures done ==> Indexed() && total == Result(Book(), fillEvents)
      ensures !done ==> AtNode(aggr, i, next, qtyNow, tradedHereNow, tradedNow, total)
      ensures !done ==> |Side(Opposite(aggr.side))[i]| - next < old(|Side(Opposite(aggr.side))[i]|) - k
    {
      hide LevelsAgree, IndexAgrees, DistinctIds, AllOnGrid, RestingStates, LeadsTo, NoneBetter, LevelOf, AllSkipped,
        CanTrade, WithinLimit;
      if isProduction && Side(Opposite(aggr.side))[i][k].sessionId == aggr.sessionId {
        SkipNode(aggr, i, k, qtyTradedAtPrice, tradedHere, traded, total);
        next, qtyNow, done, tradedHereNow, tradedNow := k + 1, qtyTradedAtPrice, false, tradedHere, traded;
      } else {
        NodeCanTrade(aggr, i, k, qtyTradedAtPrice, tradedHere, traded, total);
        next, qtyNow := TradeAtNode(aggr, i, k, qtyTradedAtPrice, tradedHere, traded, total);
        tradedHereNow, tradedNow, done := true, true, aggr.qtyRemaining == 0;
        if done {
          var filledSomeQty := aggr.qty != aggr.qtyRemaining;
          fillEvents := fillEvents + [FillEvent(IndexToPrice(i), qtyNow, Snapshot(aggr.Value()), filledSomeQty)];
        }
      }
    }

    // Take what a level offers, in time order.
    method SweepLevel(aggr: ExchangeOrder, i: int, ghost total: Result, ghost tradedBefore: bool)
      returns (done: bool, ghost traded: bool)
      requires AtNode(aggr, i, 0, 0, false, tradedBefore, total)
      modifies `lookup, `fillEvents, `resting, Side(Opposite(aggr.side)), resting, aggr
      ensures Within(resting, old(resting))
      ensures done ==> Indexed() && total == Result(Book(), fillEvents)
      ensures !done ==> Indexed() && (traded ==> aggr.qtyRemaining > 0) && aggr.status in {Accepted, PartiallyFilled}
      ensures !done ==> LeadsTo(isProduction, total, fillEvents, Book(), aggr.Value(), None, traded)
      ensures !done ==> NoneBetter(aggr, resting, i) && aggr.orderId !in lookup
      ensures !done ==> forall q :: 0 <= q < |resting| && CanTrade(aggr, resting[q]) ==> resting[q].Index() != i
    {
      hide LevelsAgree, IndexAgrees, DistinctIds, AllOnGrid, RestingStates, LeadsTo, NoneBetter, LevelOf, AllSkipped,
        CanTrade;
      var levels := Side(Opposite(aggr.side));
      var qtyTradedAtPrice: nat, k: nat := 0, 0;
      ghost var tradedHere := false;
      done, traded := false, tradedBefore;
      while !done && k < |levels[i]|
        invariant Within(resting, old(resting))
        invariant done ==> Indexed() && total == Result(Book(), fillEvents)
        invariant !done ==> AtNode(aggr, i, k, qtyTradedAtPrice, tradedHere, traded, total)
        decreases !done, |levels[i]| - k
      {
        k, qtyTradedAtPrice, done, tradedHere, traded := VisitNode(aggr, i, k, qtyTradedAtPrice, tradedHere, traded,
          total);
      }
      if !done {
        LevelEnd(aggr, i, k, qtyTradedAtPrice, tradedHere, traded, total);
        assert fillEvents + [] == fillEvents;
        if qtyTradedAtPrice > 0 {
          fillEvents := fillEvents + [FillEvent(IndexToPrice(i), qtyTradedAtPrice, Snapshot(aggr.Value()), true)];
        }
      }
    }

    method AddOrderToBook(order: ExchangeOrder, limitPriceIndex: int, ghost book: seq<Order>)
      requires Levels() && Lookups() && RestingStates(Book() + [order.Value()]) && book == Book()
      requires order.OnGrid() && limitPriceIndex == order.Index() && order.orderId !in lookup
      modifies `lookup, `resting, Side(order.side)
      ensures Indexed() && Book() == book + [order.Value()]
    {
      hide LevelsAgree, IndexAgrees, LevelOf, DistinctIds;
      ghost var was, bidsWere, asksWere := resting, bids[..], asks[..];
      LevelsAfterAppend(was, bidsWere, BUY, order);
      LevelsAfterAppend(was, asksWere, SELL, order);
      IndexAfterAppend(was, lookup, order);
      var levels := Side(order.side);
      levels[limitPriceIndex] := levels[limitPriceIndex] + [order];
      lookup := lookup[order.orderId := order];
      resting := was + [order];
      assert bids[..] == if order.side.BUY? then bidsWere[limitPriceIndex := bidsWere[limitPriceIndex] + [order]]
        else bidsWere;
      assert Book() == book + [order.Value()];
      assert asks[..] == if order.side.SELL? then asksWere[limitPriceIndex := asksWere[limitPriceIndex] + [order]]
        else asksWere;
    }

    lemma NothingEligible(aggr: ExchangeOrder)
      requires forall q :: 0 <= q < |resting| ==> !CanTrade(aggr, resting[q])
      ensures forall q :: 0 <= q < |Book()| ==> !Eligible(isProduction, aggr.Value(), Book()[q])
    {
    }

    // The end of both matching functions: a limit order rests with what is left of it.
    method FinishOrder(aggr: ExchangeOrder, ghost total: Result, ghost traded: bool)
      requires Indexed() && aggr !in resting && aggr.orderId !in lookup
      requires aggr.priceType.LIMIT? ==> aggr.OnGrid() && aggr.status in {Accepted, PartiallyFilled}
      requires traded ==> aggr.qtyRemaining > 0
      requires LeadsTo(isProduction, total, fillEvents, Book(), aggr.Value(), None, traded)
      requires forall q :: 0 <= q < |resting| ==> !CanTrade(aggr, resting[q])
      modifies `lookup, `fillEvents, `resting, Side(aggr.side), aggr
      ensures Indexed() && total == Result(Book(), fillEvents)
      ensures aggr.priceType.MARKET? ==> resting == old(resting)
    {
      hide LevelsAgree, IndexAgrees, DistinctIds, LeadsTo, CanTrade, LevelOf, AllOnGrid, RestingStates, Eligible;
      ghost var book, final, sent := Book(), aggr.Value(), fillEvents;
      NothingEligible(aggr);
      EndLeadsOn(isProduction, total, sent, book, final, traded);
      assert sent + [] == sent;
      if aggr.priceType.MARKET? {
        if aggr.qty == aggr.qtyRemaining {
          aggr.status := Unfilled;
          fillEvents := fillEvents + [FillEvent(0.0, 0, Snapshot(aggr.Value()), true)];
        }
        assert Book() == book;
      } else {
        RestingStatesAppend(book, final);
        AddOrderToBook(aggr, PriceToIndex(aggr.price), book);
      }
    }

    // The cached best price tells whether the opposite side is empty, and the levels with
    // orders that may trade begin at it.
    lemma ScanStart(aggr: ExchangeOrder, best: Price)
      requires AllOnGrid(resting) && BestAgrees(Book(), Opposite(aggr.side), best, NO_BID)
      ensures best == NO_BID <==> NoOpposite(Book(), aggr.Value())
      ensures PriceToIndex(best) < NUM_LEVELS
      ensures best != NO_BID ==> 0 <= PriceToIndex(best)
      ensures best != NO_BID ==> NoneBetter(aggr, resting, PriceToIndex(best))
      ensures best == NO_BID ==> forall i: int :: NoneBetter(aggr, resting, i)
    {
      var book := Book();
      if !NoOpposite(book, aggr.Value()) {
        var p :| IsTop(book, Opposite(aggr.side), p) && book[p].price == best;
        forall q | 0 <= q < |resting| && CanTrade(aggr, resting[q])
          ensures !Better(aggr.side, resting[q].Index(), PriceToIndex(best))
        {
          assert Ahead(aggr.side, book, p, q);
        }
        assert resting[p].Index() == PriceToIndex(best);
      }
    }

    ghost predicate Incoming(aggr: ExchangeOrder)
      reads `resting, `lookup, aggr
    {
      && aggr !in resting && aggr.orderId !in lookup
      && aggr.status == Accepted && (aggr.priceType.LIMIT? ==> aggr.OnGrid())
    }

    /** Between two levels of a scan: nothing at level i or better is left that could trade. */
    ghost predicate BetweenLevels(aggr: ExchangeOrder, i: int, traded: bool, total: Result)
      reads `fillEvents, `resting, `lookup, bids, asks, resting, aggr
    {
      && Indexed() && aggr !in resting && aggr.orderId !in lookup
      && NoneBetter(aggr, resting, i)
      && (traded ==> aggr.qtyRemaining > 0) && aggr.status in {Accepted, PartiallyFilled}
      && LeadsTo(isProduction, total, fillEvents, Book(), aggr.Value(), None, traded)
    }

    /** Where the whole match leads, said before its first trade. */
    ghost function Total(aggr: ExchangeOrder): (total: Result)
      reads `fillEvents, `resting, resting, aggr
      ensures LeadsTo(isProduction, total, fillEvents, Book(), aggr.Value(), None, false)
    {
      var whole := Resume(isProduction, Book(), aggr.Value(), None, false);
      whole.(events := fillEvents + whole.events)
    }

    /** Nothing is left that could trade. */
    ghost predicate ScanOver(aggr: ExchangeOrder, traded: bool, total: Result)
      reads `fillEvents, `resting, `lookup, bids, asks, resting, aggr
    {
      && Indexed() && aggr !in resting && aggr.orderId !in lookup
      && (forall q :: 0 <= q < |resting| ==> !CanTrade(aggr, resting[q]))
      && (traded ==> aggr.qtyRemaining > 0) && aggr.status in {Accepted, PartiallyFilled}
      && LeadsTo(isProduction, total, fillEvents, Book(), aggr.Value(), None, traded)
    }

    // A scan ends behind the last level or at the limit.
    lemma ScanEnd(aggr: ExchangeOrder, i: int, traded: bool, total: Result)
      requires BetweenLevels(aggr, i, traded, total)
      requires if aggr.side.SELL? then i < 0 || !WithinLimit(aggr, i) else i >= NUM_LEVELS || !WithinLimit(aggr, i)
      ensures ScanOver(aggr, traded, total)
    {
      hide LevelsAgree, IndexAgrees, DistinctIds, RestingStates, LeadsTo, LevelOf;
    }

    lemma NextLevel(aggr: ExchangeOrder, i: int)
      requires NoneBetter(aggr, resting, i)
      requires forall q :: 0 <= q < |resting| && CanTrade(aggr, resting[q]) ==> resting[q].Index() != i
      ensures NoneBetter(aggr, resting, if aggr.side.SELL? then i - 1 else i + 1)
    {
    }

    // An empty level offers nothing.
    lemma EmptyLevel(aggr: ExchangeOrder, i: int)
      requires Levels() && 0 <= i < NUM_LEVELS && Side(Opposite(aggr.side))[i] == [] && NoneBetter(aggr, resting, i)
      ensures NoneBetter(aggr, resting, if aggr.side.SELL? then i - 1 else i + 1)
    {
      LevelIs(Opposite(aggr.side), i);
      LevelIsSpent(aggr, i);
    }

    // One turn of the outer loop.
    method VisitLevel(aggr: ExchangeOrder, i: int, ghost total: Result, ghost tradedBefore: bool)
      returns (done: bool, ghost traded: bool)
      requires BetweenLevels(aggr, i, tradedBefore, total) && 0 <= i < NUM_LEVELS && WithinLimit(aggr, i)
      modifies `lookup, `fillEvents, `resting, Side(Opposite(aggr.side)), resting, aggr
      ensures Within(resting, old(resting))
      ensures done ==> Indexed() && total == Result(Book(), fillEvents)
      ensures !done ==> BetweenLevels(aggr, if aggr.side.SELL? then i - 1 else i + 1, traded, total)
    {
      hide LevelsAgree, IndexAgrees, DistinctIds, AllOnGrid, RestingStates, LeadsTo, NoneBetter, LevelOf, CanTrade,
        WithinLimit;
      done, traded := false, tradedBefore;
      if Side(Opposite(aggr.side))[i] == [] {
        EmptyLevel(aggr, i);
      } else {
        done, traded := SweepLevel(aggr, i, total, tradedBefore);
        if !done {
          NextLevel(aggr, i);
        }
      }
    }

    // Take quantity from the best bid downwards, until the limit.
    method ScanBids(aggr: ExchangeOrder, start: int, ghost total: Result) returns (done: bool, ghost traded: bool)
      requires aggr.side.SELL? && start < NUM_LEVELS && BetweenLevels(aggr, start, false, total)
      modifies `lookup, `fillEvents, `resting, bids, resting, aggr
      ensures Within(resting, old(resting))
      ensures done ==> Indexed() && total == Result(Book(), fillEvents)
      ensures !done ==> ScanOver(aggr, traded, total)
    {
      hide Indexed, BetweenLevels;
      var limitPriceIndex := if aggr.priceType.LIMIT? then PriceToIndex(aggr.price) else 0;
      var i := start;
      done, traded := false, false;
      while !done && i >= 0 && !(aggr.priceType.LIMIT? && i < limitPriceIndex)
        invariant i < NUM_LEVELS && Within(resting, old(resting))
        invariant done ==> Indexed() && total == Result(Book(), fillEvents)
        invariant !done ==> BetweenLevels(aggr, i, traded, total)
        decreases !done, i
      {
        done, traded := VisitLevel(aggr, i, total, traded);
        i := i - 1;
      }
      if !done {
        ScanEnd(aggr, i, traded, total);
      }
    }

    method MatchAggressingSellOrder(aggr: ExchangeOrder, ghost book: seq<Order>, ghost incoming: Order)
      requires Valid() && Incoming(aggr) && aggr.side.SELL?
      requires book == Book() && incoming == aggr.Value()
      modifies `lookup, `fillEvents, `resting, bids, asks, resting, aggr
      ensures Indexed()
      ensures Book() == Submit(isProduction, book, incoming).book
      ensures fillEvents == old(fillEvents) + Submit(isProduction, book, incoming).events
    {
      hide LevelsAgree, IndexAgrees, DistinctIds, AllOnGrid, RestingStates, LeadsTo, NoneBetter, LevelOf, CanTrade,
        BestAgrees, Resume, WithinLimit, NoOpposite;
      ScanStart(aggr, bestBid);
      if aggr.priceType.MARKET? && bestBid == NO_BID {
        assert fillEvents + [] == fillEvents;
      } else {
        ghost var total := Total(aggr);
        var done;
        ghost var traded;
        done, traded := ScanBids(aggr, PriceToIndex(bestBid), total);
        if !done {
          FinishOrder(aggr, total, traded);
        }
      }
    }
  
    // Take quantity from the best ask upwards, until the limit.
    method ScanAsks(aggr: ExchangeOrder, start: int, ghost total: Result) returns (done: bool, ghost traded: bool)
      requires aggr.side.BUY? && 0 <= start && BetweenLevels(aggr, start, false, total)
      modifies `lookup, `fillEvents, `resting, asks, resting, aggr
      ensures Within(resting, old(resting))
      ensures done ==> Indexed() && total == Result(Book(), fillEvents)
      ensures !done ==> ScanOver(aggr, traded, total)
    {
      hide Indexed, BetweenLevels;
      var limitPriceIndex := if aggr.priceType.LIMIT? then PriceToIndex(aggr.price) else 0;
      var i := start;
      done, traded := false, false;
      while !done && i < NUM_LEVELS && !(aggr.priceType.LIMIT? && i > limitPriceIndex)
        invariant 0 <= i && Within(resting, old(resting))
        invariant done ==> Indexed() && total == Result(Book(), fillEvents)
        invariant !done ==> BetweenLevels(aggr, i, traded, total)
        decreases !done, NUM_LEVELS - i
      {
        done, traded := VisitLevel(aggr, i, total, traded);
        i := i + 1;
      }
      if !done {
        ScanEnd(aggr, i, traded, total);
      }
    }

    method MatchAggressingBuyOrder(aggr: ExchangeOrder, ghost book: seq<Order>, ghost incoming: Order)
      requires Valid() && Incoming(aggr) && aggr.side.BUY?
      requires book == Book() && incoming == aggr.Value()
      modifies `lookup, `fillEvents, `resting, bids, asks, resting, aggr
      ensures Indexed()
      ensures Book() == Submit(isProduction, book, incoming).book
      ensures fillEvents == old(fillEvents) + Submit(isProduction, book, incoming).events
    {
      hide LevelsAgree, IndexAgrees, DistinctIds, AllOnGrid, RestingStates, LeadsTo, NoneBetter, LevelOf, CanTrade,
        BestAgrees, Resume, WithinLimit, NoOpposite;
      ScanStart(aggr, bestAsk);
      if aggr.priceType.MARKET? && bestAsk == NO_ASK {
        assert fillEvents + [] == fillEvents;
      } else {
        ghost var total := Total(aggr);
        AsSizeOfIndex(PriceToIndex(bestAsk));
        var done;
        ghost var traded;
        done, traded := ScanAsks(aggr, AsSize(PriceToIndex(bestAsk)), total);
        if !done {
          FinishOrder(aggr, total, traded);
        }
      }
    }

    // ----- The cached best prices

    method FindBestBid() returns (best: Price)
      requires Levels()
      ensures BestAgrees(Book(), BUY, best, NO_BID)
    {
      var i := NUM_LEVELS - 1;
      while i >= 0
        invariant i < NUM_LEVELS
        invariant forall q :: 0 <= q < |resting| && resting[q].side == BUY ==> resting[q].Index() <= i
      {
        LevelIs(BUY, i);
        if bids[i] != [] {
          FrontIsTop(BUY, i);
          return bids[i][0].price;
        }
        LevelIsEmpty(BUY, i);
        i := i - 1;
      }
      return NO_BID;
    }

    method FindBestAsk() returns (best: Price)
      requires Levels()
      ensures BestAgrees(Book(), SELL, best, NO_ASK)
    {
      var i := 0;
      while i < NUM_LEVELS
        invariant 0 <= i
        invariant forall q :: 0 <= q < |resting| && resting[q].side == SELL ==> i <= resting[q].Index()
      {
        LevelIs(SELL, i);
        if asks[i] != [] {
          FrontIsTop(SELL, i);
          return asks[i][0].price;
        }
        LevelIsEmpty(SELL, i);
        i := i + 1;
      }
      return NO_ASK;
    }

    lemma LevelIsEmpty(side: SideType, i: int)
      requires LevelOf(resting, side, i) == []
      ensures forall q :: 0 <= q < |resting| && resting[q].side == side ==> resting[q].Index() != i
    {
      forall q | 0 <= q < |resting| && At(resting[q], side, i)
        ensures false
      {
        RankInLevel(resting, q);
      }
    }

    lemma FrontIsTop(side: SideType, i: int)
      requires LevelOf(resting, side, i) != []
      requires forall q :: 0 <= q < |resting| && resting[q].side == side ==>
        !Better(Opposite(side), resting[q].Index(), i)
      ensures BestAgrees(Book(), side, LevelOf(resting, side, i)[0].price, NO_BID)
    {
      var book := Book();
      var p := Locate(resting, side, i, 0);
      forall q | 0 <= q < |book| && book[q].side == side
        ensures Ahead(Opposite(side), book, p, q)
      {
        if resting[q].Index() == i && q < p {
          RankIsMonotone(resting, q, p);
        }
      }
      assert IsTop(book, side, p) && book[p].price == LevelOf(resting, side, i)[0].price;
    }

    method UpdateBestBidAndAsk()
      requires Indexed()
      modifies `bestBid, `bestAsk
      ensures Valid()
    {
      hide LevelsAgree, IndexAgrees, DistinctIds, AllOnGrid, RestingStates, BestAgrees, Values;
      bestBid := FindBestBid();
      bestAsk := FindBestAsk();
    }

    // ----- The requests

    // One turn of the matching thread with an order it took from its queue.
    method ProcessOrder(order: ExchangeOrder, ghost book: seq<Order>, ghost incoming: Order)
      requires Valid() && Incoming(order)
      requires book == Book() && incoming == order.Value()
      modifies `lookup, `fillEvents, `resting, `bestBid, `bestAsk, bids, asks, resting, order
      ensures Valid()
      ensures Book() == Submit(isProduction, book, incoming).book
      ensures fillEvents == old(fillEvents) + Submit(isProduction, book, incoming).events
    {
      hide Indexed, BestAgrees, Submit, Values;
      if order.side.BUY? {
        MatchAggressingBuyOrder(order, book, incoming);
      } else {
        MatchAggressingSellOrder(order, book, incoming);
      }
      UpdateBestBidAndAsk();
    }

    // What the index says about an id.
    lemma LookupMeans(orderId: OrderId) returns (p: nat)
      requires Lookups()
      ensures orderId in lookup <==> Resting(Book(), orderId)
      ensures orderId !in lookup ==> Without(Book(), orderId) == Book()
      ensures orderId in lookup ==>
        p < |resting| && resting[p] == lookup[orderId] && Without(Book(), orderId) == Book()[..p] + Book()[p + 1..]
    {
      hide Without;
      var book := Book();
      assert forall q :: 0 <= q < |book| ==> book[q].orderId == resting[q].orderId;
      p := 0;
      if orderId in lookup {
        p :| 0 <= p < |resting| && resting[p] == lookup[orderId];
        assert book[p].orderId == orderId;
        WithoutAt(book, p);
      } else {
        WithoutAbsent(book, orderId);
      }
    }

    method CancelOrder(orderId: OrderId, ghost book: seq<Order>) returns (success: bool)
      requires Valid() && book == Book()
      modifies `lookup, `resting, `bestBid, `bestAsk, bids, asks
      ensures Valid()
      ensures success <==> Resting(book, orderId)
      ensures Book() == Without(book, orderId)
    {
      hide LevelsAgree, LevelOf, RestingStates, BestAgrees, Resting, Without;
      ghost var p := LookupMeans(orderId);
      if orderId !in lookup {
        return false;
      }
      var order := lookup[orderId];
      var i := PriceToIndex(order.price);
      LevelIs(order.side, i);
      RankInLevel(resting, p);
      var k :| 0 <= k < |Side(order.side)[i]| && Side(order.side)[i][k] == order;
      NodeIsAtRank(resting, p, k);
      RestingStatesErase(book, p);
      EraseNode(order.side, i, k, p);
      UpdateBestBidAndAsk();
      success := true;
    }
  
    // ----- Clearing the book, which ends the engine's use

    method SendDone(order: ExchangeOrder, ghost was: Order)
      requires was == order.Value()
      modifies `fillEvents, order
      ensures order.Value() == was.(status := Done)
      ensures fillEvents == old(fillEvents) + [FillEvent(0.0, 0, Snapshot(was.(status := Done)), true)]
    {
      order.status := Done;
      fillEvents := fillEvents + [FillEvent(0.0, 0, Snapshot(order.Value()), true)];
    }

    method ClearLevel(levels: array<seq<ExchangeOrder>>, i: int, ghost orders: seq<Order>)
      requires 0 <= i < levels.Length && DistinctIds(levels[i]) && Values(levels[i]) == orders
      modifies `fillEvents, levels, levels[i]
      ensures levels[..] == old(levels[..])[i := []]
      ensures fillEvents == old(fillEvents) + DoneEvents(orders)
      ensures forall o :: o in old(levels[i]) ==> o.status == Done && o.qtyRemaining == old(o.qtyRemaining)
    {
      hide DoneEvents, Values;
      ghost var nodes, n, events := levels[i], 0, DoneEvents(orders);
      while levels[i] != []
        invariant n <= |nodes| && levels[..] == old(levels[..])[i := nodes[n..]]
        invariant forall m :: n <= m < |nodes| ==> nodes[m].Value() == orders[m]
        invariant forall m :: 0 <= m < n ==> nodes[m].Value() == orders[m].(status := Done)
        invariant fillEvents == old(fillEvents) + events[..n]
        decreases |levels[i]|
      {
        SendDone(levels[i][0], orders[n]);
        assert events[..n + 1] == events[..n] + [events[n]];
        levels[i] := levels[i][1..];
        n := n + 1;
      }
      assert events[..n] == events;
    }
  
    /** The orders of one side below level i are Done, all others are as the book has them. */
    ghost predicate ClearedBelow(was: seq<ExchangeOrder>, book: seq<Order>, side: SideType, i: int)
      reads was
    {
      && |book| == |was|
      && forall q :: 0 <= q < |was| ==>
           was[q].Value() ==
             if book[q].side == side && Level(book[q]) < i then book[q].(status := Done) else book[q]
    }

    lemma BeforeLevel(was: seq<ExchangeOrder>, book: seq<Order>, side: SideType, i: int)
      requires ClearedBelow(was, book, side, i)
      ensures Values(LevelOf(was, side, i)) == LevelOrders(book, side, i)
    {
      forall q | 0 <= q < |was|
        ensures book[q].side == was[q].side && book[q].price == was[q].price
        ensures At(was[q], side, i) ==> was[q].Value() == book[q]
      {
        assert was[q].Value().side == book[q].side;
      }
      ValuesOfLevel(was, book, side, i);
    }

    lemma ClearOneMore(was: seq<ExchangeOrder>, book: seq<Order>, side: SideType, i: int,
                       nodes: seq<ExchangeOrder>, before: seq<Order>)
      requires |book| == |was| == |before| && nodes == LevelOf(was, side, i)
      requires forall q :: 0 <= q < |was| ==>
        before[q] == if book[q].side == side && Level(book[q]) < i then book[q].(status := Done) else book[q]
      requires forall q :: 0 <= q < |was| ==>
        was[q].Value() == if was[q] in nodes then before[q].(status := Done) else before[q]
      ensures ClearedBelow(was, book, side, i + 1)
    {
      forall q | 0 <= q < |was|
        ensures was[q] in nodes <==> book[q].side == side && Level(book[q]) == i
      {
        assert was[q].Value().side == book[q].side && was[q].Value().price == book[q].price;
        if At(was[q], side, i) {
          RankInLevel(was, q);
        }
      }
    }

    method ClearOneLevel(side: SideType, i: int, ghost was: seq<ExchangeOrder>, ghost book: seq<Order>)
      requires 0 <= i < Side(side).Length && Side(side)[i] == LevelOf(was, side, i)
      requires DistinctIds(was) && ClearedBelow(was, book, side, i)
      modifies `fillEvents, Side(side), was
      ensures Side(side)[..] == old(Side(side)[..])[i := []]
      ensures fillEvents == old(fillEvents) + DoneEvents(LevelOrders(book, side, i))
      ensures ClearedBelow(was, book, side, i + 1)
    {
      hide DoneEvents, LevelOrders, Values, DistinctIds, LevelOf;
      BeforeLevel(was, book, side, i);
      LevelOfIsDistinct(was, side, i);
      ghost var nodes, before := LevelOf(was, side, i), Values(was);
      ClearLevel(Side(side), i, LevelOrders(book, side, i));
      ClearOneMore(was, book, side, i, nodes, before);
    }

    method ClearSide(side: SideType, ghost was: seq<ExchangeOrder>, ghost book: seq<Order>)
      requires DistinctIds(was) && LevelsAgree(was, Side(side)[..], side) && ClearedBelow(was, book, side, 0)
      modifies `fillEvents, Side(side), was
      ensures forall j :: 0 <= j < Side(side).Length ==> Side(side)[j] == []
      ensures fillEvents == old(fillEvents) + ClearedEvents(book, side, Side(side).Length)
      ensures ClearedBelow(was, book, side, Side(side).Length)
    {
      hide DoneEvents, LevelOrders, Values, DistinctIds, LevelOf, ClearedBelow;
      var levels, i := Side(side), 0;
      while i < levels.Length
        invariant 0 <= i <= levels.Length
        invariant forall j :: 0 <= j < i ==> levels[j] == []
        invariant forall j :: i <= j < levels.Length ==> levels[j] == LevelOf(was, side, j)
        invariant ClearedBelow(was, book, side, i)
        invariant fillEvents == old(fillEvents) + ClearedEvents(book, side, i)
      {
        ghost var before := levels[..];
        ClearOneLevel(side, i, was, book);
        assert forall j :: 0 <= j < levels.Length && j != i ==> levels[..][j] == before[j];
        i := i + 1;
      }
    }
  
    // Every resting order leaves the book with one event.  The id index and the cached best
    // prices are not touched, so the engine is not used after this.
    method ClearBook(ghost book: seq<Order>)
      requires Levels() && DistinctIds(resting) && book == Book()
      modifies `fillEvents, `resting, bids, asks, resting
      ensures Levels() && Book() == []
      ensures forall i :: 0 <= i < bids.Length ==> bids[i] == []
      ensures forall i :: 0 <= i < asks.Length ==> asks[i] == []
      ensures fillEvents == old(fillEvents) + ClearedEvents(book, BUY, bids.Length) +
        ClearedEvents(book, SELL, asks.Length)
      ensures forall q :: 0 <= q < |book| ==> old(resting)[q].Value() == book[q].(status := Done)
    {
      ghost var was := resting;
      assert ClearedBelow(was, book, BUY, 0);
      hide DistinctIds, LevelOf;
      ClearSide(BUY, was, book);
      ghost var book' := Values(was);
      assert ClearedBelow(was, book', SELL, 0);
      ClearedEventsOfSide(book, book', SELL, asks.Length);
      ClearSide(SELL, was, book');
      resting := [];
      EmptyLevelsAgree();
    }

    lemma EmptyLevelsAgree()
      requires forall i :: 0 <= i < bids.Length ==> bids[i] == []
      requires forall i :: 0 <= i < asks.Length ==> asks[i] == []
      ensures LevelsAgree([], bids[..], BUY) && LevelsAgree([], asks[..], SELL)
    {
    }

    constructor (isProduction: bool)
      ensures Valid() && Book() == [] && fillEvents == [] && this.isProduction == isProduction
      ensures fresh(bids) && fresh(asks)
    {
      LevelCount();
      this.isProduction := isProduction;
      bids := new seq<ExchangeOrder>[NUM_LEVELS](_ => []);
      asks := new seq<ExchangeOrder>[NUM_LEVELS](_ => []);
      bestBid, bestAsk, lookup, fillEvents, resting := NO_BID, NO_ASK, map[], [], [];
      new;
      EmptyLevelsAgree();
    }
  }
}
