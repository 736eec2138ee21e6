/** Laws of the prices and the grouping of fills. */
module FillLaws {
  import opened Options
  import opened TradingTypes
  import opened Ticks
  import opened PriceTime
  import opened EngineRuns
  import EngineStatus

  // ----- Which orders trade, and in which order of prices

  /** An incoming sell takes bids at its level or above, a buy asks at its level or below, a market order any. */
  predicate WithinLimit(aggr: Order, level: int) {
    match aggr.side
    case SELL => aggr.priceType.LIMIT? ==> PriceToIndex(aggr.price) <= level
    case BUY => aggr.priceType.LIMIT? ==> level <= PriceToIndex(aggr.price)
  }

  /** An order of the book, as it rests there, that the incoming order may trade with. */
  predicate EligibleIn(prod: bool, book: seq<Order>, aggr: Order, resting: Order) {
    && resting in book && resting.side == (if aggr.side.SELL? then BUY else SELL)
    && WithinLimit(aggr, PriceToIndex(resting.price))
    && (prod ==> resting.sessionId != aggr.sessionId)
  }

  /** Every trade is with an order of the book before, as it rested there, that was eligible then. */
  lemma {:induction false} TradesAreEligible(prod: bool, book: seq<Order>, aggr: Order)
    ensures forall i :: 0 <= i < |Match(prod, book, aggr).trades| ==>
      EligibleIn(prod, book, aggr, Match(prod, book, aggr).trades[i].resting)
    decreases |book|
  {
    var best := Best(prod, book, aggr);
    if best.Some? {
      var p := best.value;
      var q := TradeQty(book, aggr, p);
      var book', aggr' := AfterTrade(book, p, q), Fill(aggr, q);
      MatchStep(prod, book, aggr, p);
      if aggr'.qtyRemaining != 0 {
        TradesAreEligible(prod, book', aggr');
        forall i | 0 <= i < |Match(prod, book', aggr').trades|
          ensures EligibleIn(prod, book, aggr, Match(prod, book', aggr').trades[i].resting)
        {
          assert EligibleIn(prod, book', aggr', Match(prod, book', aggr').trades[i].resting);
        }
      }
    }
  }

  /** Prices only get worse for the incoming order: lower for a sell, higher for a buy. */
  ghost predicate Worsening(side: SideType, trades: seq<Trade>) {
    forall i, j :: 0 <= i < j < |trades| ==>
      if side.SELL? then trades[j].TradeLevel() <= trades[i].TradeLevel()
      else trades[i].TradeLevel() <= trades[j].TradeLevel()
  }

  lemma {:induction false} MatchWorsens(prod: bool, book: seq<Order>, aggr: Order)
    ensures Worsening(aggr.side, Match(prod, book, aggr).trades)
    decreases |book|
  {
    var best := Best(prod, book, aggr);
    if best.Some? {
      var p := best.value;
      var q := TradeQty(book, aggr, p);
      var book', aggr' := AfterTrade(book, p, q), Fill(aggr, q);
      MatchStep(prod, book, aggr, p);
      if aggr'.qtyRemaining != 0 {
        MatchWorsens(prod, book', aggr');
        TradesAreEligible(prod, book, aggr);
        var trades := Match(prod, book, aggr).trades;
        forall j | 0 < j < |trades|
          ensures !Better(aggr.side, trades[j].TradeLevel(), Level(book[p]))
        {
          var x :| 0 <= x < |book| && book[x] == trades[j].resting;
          assert EligibleIn(prod, book, aggr, trades[j].resting);
          assert Ahead(aggr.side, book, p, x);
        }
      }
    }
  }

  // ----- Priority

  lemma MatchRemains(prod: bool, book: seq<Order>, aggr: Order, id: OrderId)
    requires forall i :: 0 <= i < |book| ==> book[i].orderId != id
    ensures forall i :: 0 <= i < |Match(prod, book, aggr).book| ==> Match(prod, book, aggr).book[i].orderId != id
  {
    EngineStatus.MatchExhausts(prod, book, aggr);
    var after := Match(prod, book, aggr).book;
    forall i | 0 <= i < |after|
      ensures after[i].orderId != id
    {
      assert EngineStatus.ComesFrom(after[i], book);
      var j :| 0 <= j < |book| && EngineStatus.SameTerms(after[i], book[j]);
      assert after[i].(qtyRemaining := 0, status := Accepted).orderId == after[i].orderId;
    }
  }

  /** The book without its p-th order, and where another order is in it. */
  function Cut(book: seq<Order>, p: nat): seq<Order>
    requires p < |book|
  {
    book[..p] + book[p + 1..]
  }

  function Shift(p: nat, k: nat): nat {
    if k <= p then k else k - 1
  }

  lemma CutFacts(book: seq<Order>, p: nat)
    requires p < |book| && UniqueIds(book)
    ensures |Cut(book, p)| == |book| - 1 && UniqueIds(Cut(book, p))
    ensures forall k :: 0 <= k < |Cut(book, p)| ==> Cut(book, p)[k].orderId != book[p].orderId
    ensures forall o :: o in Cut(book, p) ==> o in book
  {
    assert forall k :: 0 <= k < |Cut(book, p)| ==> Cut(book, p)[k] == book[if k < p then k else k + 1];
  }

  lemma CutKeeps(book: seq<Order>, p: nat, k: nat)
    requires p < |book| && k < |book| && k != p
    ensures Shift(p, k) < |Cut(book, p)| && Cut(book, p)[Shift(p, k)] == book[k]
  {
  }

  /** A match with a best order, unfolded once. */
  lemma MatchUnfolds(prod: bool, book: seq<Order>, aggr: Order, p: nat)
    requires p < |book| && IsBest(prod, book, aggr, p)
    ensures
      var m := Match(prod, book, aggr);
      && m.trades != [] && m.trades[0].resting == book[p]
      && if aggr.qtyRemaining <= book[p].qtyRemaining then |m.trades| == 1
         else var m' := Match(prod, Cut(book, p), Fill(aggr, book[p].qtyRemaining));
              m.trades[1..] == m'.trades && m.book == m'.book
  {
    MatchStep(prod, book, aggr, p);
    assert book[p].qtyRemaining < aggr.qtyRemaining ==> AfterTrade(book, p, book[p].qtyRemaining) == Cut(book, p);
    hide Match, IsBest, AfterTrade, Cut;
  }

  /** Is book[y] at a better price than book[x] for the incoming order, or at the same and earlier? */
  predicate ComesFirst(aggrSide: SideType, book: seq<Order>, y: nat, x: nat)
    requires y < |book| && x < |book|
  {
    var ly, lx := Level(book[y]), Level(book[x]);
    (if aggrSide.SELL? then lx < ly else ly < lx) || (ly == lx && y < x)
  }

  /** Some trade is with book[x], and book[y] was eligible and comes before it. */
  ghost predicate WaitsFor(prod: bool, book: seq<Order>, aggr: Order, i: nat, x: nat, y: nat) {
    && i < |Match(prod, book, aggr).trades| && x < |book| && y < |book| && x != y
    && Match(prod, book, aggr).trades[i].resting.orderId == book[x].orderId
    && Eligible(prod, aggr, book[y]) && ComesFirst(aggr.side, book, y, x)
  }

  /** The first trade is with the best order, which waits for no one; the others are of the book without it. */
  lemma WaitsLonger(prod: bool, book: seq<Order>, aggr: Order, p: nat, i: nat, x: nat, y: nat)
    requires UniqueIds(book) && p < |book| && IsBest(prod, book, aggr, p) && WaitsFor(prod, book, aggr, i, x, y)
    ensures i > 0 && x != p && book[p].qtyRemaining < aggr.qtyRemaining
    ensures y != p ==>
      WaitsFor(prod, Cut(book, p), Fill(aggr, book[p].qtyRemaining), i - 1, Shift(p, x), Shift(p, y))
  {
    var trades := Match(prod, book, aggr).trades;
    assert Ahead(aggr.side, book, p, y);
    assert x != p;
    hide Match, IsBest, Cut, Level, Eligible;
    MatchUnfolds(prod, book, aggr, p);
    assert i > 0;
    assert trades[i] == trades[1..][i - 1];
    hide UniqueIds;
    if y != p {
      var aggr' := Fill(aggr, book[p].qtyRemaining);
      CutKeeps(book, p, x);
      CutKeeps(book, p, y);
      assert Eligible(prod, aggr', book[y]) by {
        SameEligible(prod, aggr, book[p].qtyRemaining, book[y]);
      }
    }
  }

  lemma SameEligible(prod: bool, aggr: Order, q: nat, resting: Order)
    requires q <= aggr.qtyRemaining
    ensures Eligible(prod, Fill(aggr, q), resting) == Eligible(prod, aggr, resting)
  {
  }

  /** If an order trades at all, every eligible order ahead of it is filled: it is gone afterwards. */
  lemma {:induction false} PriorityIsRespected(prod: bool, book: seq<Order>, aggr: Order, i: nat, x: nat, y: nat)
    requires UniqueIds(book) && WaitsFor(prod, book, aggr, i, x, y)
    ensures forall k :: 0 <= k < |Match(prod, book, aggr).book| ==>
      Match(prod, book, aggr).book[k].orderId != book[y].orderId
    decreases |book|
  {
    assert Best(prod, book, aggr).Some?;
    var p := Best(prod, book, aggr).value;
    assert p < |book|;
    hide Match, WaitsFor, IsBest, Cut, Best;
    WaitsLonger(prod, book, aggr, p, i, x, y);
    MatchUnfolds(prod, book, aggr, p);
    CutFacts(book, p);
    var book', aggr' := Cut(book, p), Fill(aggr, book[p].qtyRemaining);
    if y == p {
      MatchRemains(prod, book', aggr', book[y].orderId);
    } else {
      CutKeeps(book, p, y);
      PriorityIsRespected(prod, book', aggr', i - 1, Shift(p, x), Shift(p, y));
    }
  }

  // ----- Fair prices

  /** A fill is announced within half a tick of the resting order's limit, and of the incoming one's or better. */
  predicate FairPrice(t: Trade, aggr: Order) {
    var fill := IndexToPrice(t.TradeLevel());
    && t.resting.price - TICK_SIZE / 2.0 <= fill <= t.resting.price + TICK_SIZE / 2.0
    && (aggr.priceType.LIMIT? ==>
          if aggr.side.SELL? then fill >= aggr.price - TICK_SIZE / 2.0 else fill <= aggr.price + TICK_SIZE / 2.0)
  }

  lemma PriceNearIndex(price: Price)
    requires 0.0 <= price
    ensures 0 <= PriceToIndex(price)
    ensures price - TICK_SIZE / 2.0 <= IndexToPrice(PriceToIndex(price)) <= price + TICK_SIZE / 2.0
  {
    Monotone(0.0, price);
    NearestTick(price, PriceToIndex(price));
  }

  lemma FillsAreFair(prod: bool, book: seq<Order>, aggr: Order, i: nat)
    requires forall x :: 0 <= x < |book| ==> 0.0 <= book[x].price
    requires 0.0 <= aggr.price && i < |Match(prod, book, aggr).trades|
    ensures FairPrice(Match(prod, book, aggr).trades[i], aggr)
  {
    var t := Match(prod, book, aggr).trades[i];
    TradesAreEligible(prod, book, aggr);
    assert EligibleIn(prod, book, aggr, t.resting);
    PriceNearIndex(t.resting.price);
    PriceNearIndex(aggr.price);
    IndexToPriceIsMonotone(Level(aggr), Level(t.resting));
    IndexToPriceIsMonotone(Level(t.resting), Level(aggr));
  }

  lemma IndexToPriceIsMonotone(i: int, j: int)
    ensures i <= j ==> IndexToPrice(i) <= IndexToPrice(j)
    ensures IndexToPrice(i) == IndexToPrice(j) ==> i == j
  {
  }

  // ----- Grouping

  /** The quantity events announce at a price, for one order or for all the others. */
  function Announced(events: seq<FillEvent>, price: Price, id: OrderId, own: bool): nat {
    if events == [] then 0
    else
      var e := events[0];
      (if e.price == price && (e.snapshot.orderId == id) == own then e.qty else 0) +
      Announced(events[1..], price, id, own)
  }

  function Times(events: seq<FillEvent>, price: Price, id: OrderId): nat {
    if events == [] then 0
    else
      (if events[0].price == price && events[0].snapshot.orderId == id && events[0].qty > 0 then 1 else 0) +
      Times(events[1..], price, id)
  }

  lemma {:induction false} AnnouncedConcat(a: seq<FillEvent>, b: seq<FillEvent>, price: Price, id: OrderId, own: bool)
    ensures Announced(a + b, price, id, own) == Announced(a, price, id, own) + Announced(b, price, id, own)
    ensures Times(a + b, price, id) == Times(a, price, id) + Times(b, price, id)
  {
    if a == [] {
      assert a + b == b;
    } else {
      assert (a + b)[1..] == a[1..] + b;
      AnnouncedConcat(a[1..], b, price, id, own);
    }
  }

  /** The quantity traded at a level. */
  function TradedAt(trades: seq<Trade>, level: int): nat {
    if trades == [] then 0
    else (if trades[0].TradeLevel() == level then trades[0].qty else 0) + TradedAt(trades[1..], level)
  }

  /** Trades of one incoming order, not with itself. */
  predicate TradesOf(trades: seq<Trade>, id: OrderId) {
    forall i :: 0 <= i < |trades| ==>
      trades[i].Valid() && trades[i].aggr.orderId == id && trades[i].resting.orderId != id
  }

  function PendingAt(pending: Option<Pending>, level: int): nat {
    if pending.Some? && pending.value.level == level then pending.value.qty else 0
  }

  lemma FlushAnnounces(pending: Option<Pending>, level: int, id: OrderId)
    requires pending.Some? ==> pending.value.aggr.orderId == id
    ensures Announced(Flush(pending), IndexToPrice(level), id, true) == PendingAt(pending, level)
    ensures Announced(Flush(pending), IndexToPrice(level), id, false) == 0
    ensures Times(Flush(pending), IndexToPrice(level), id) <=
      if pending.Some? && pending.value.level == level then 1 else 0
  {
    if pending.Some? {
      IndexToPriceIsMonotone(pending.value.level, level);
      assert Flush(pending) != [] ==> Flush(pending)[1..] == [];
    }
  }

  lemma RestingAnnounces(t: Trade, level: int, id: OrderId)
    requires t.Valid() && t.resting.orderId != id
    ensures
      var events, price := [RestingEvent(t)], IndexToPrice(level);
      && Announced(events, price, id, true) == 0 == Times(events, price, id)
      && Announced(events, price, id, false) == if t.TradeLevel() == level then t.qty else 0
  {
    IndexToPriceIsMonotone(t.TradeLevel(), level);
    assert [RestingEvent(t)][1..] == [];
  }

  /** At every price the incoming order is told what the resting ones are told. */
  lemma {:induction false} RenderBalances(pending: Option<Pending>, trades: seq<Trade>, level: int, id: OrderId)
    requires TradesOf(trades, id) && (pending.Some? ==> pending.value.aggr.orderId == id)
    ensures
      var events, price := Render(pending, trades), IndexToPrice(level);
      && Announced(events, price, id, true) == PendingAt(pending, level) + TradedAt(trades, level)
      && Announced(events, price, id, false) == TradedAt(trades, level)
    decreases |trades|
  {
    FlushAnnounces(pending, level, id);
    if trades != [] {
      var t, rest := trades[0], trades[1..];
      var price := IndexToPrice(level);
      var before, ext := FlushBefore(pending, t), Some(Extend(pending, t));
      RenderBalances(ext, rest, level, id);
      RestingAnnounces(t, level, id);
      hide RestingEvent, IndexToPrice, Flush;
      AnnouncedConcat(before, [RestingEvent(t)], price, id, true);
      AnnouncedConcat(before, [RestingEvent(t)], price, id, false);
      AnnouncedConcat(before + [RestingEvent(t)], Render(ext, rest), price, id, true);
      AnnouncedConcat(before + [RestingEvent(t)], Render(ext, rest), price, id, false);
    }
  }

  /** All trades at the level of the pending ones come first. */
  ghost predicate Grouped(side: SideType, pending: Option<Pending>, trades: seq<Trade>) {
    && Worsening(side, trades)
    && (pending.Some? ==> forall i :: 0 <= i < |trades| ==> !Better(side, trades[i].TradeLevel(), pending.value.level))
  }

  predicate NoneAt(pending: Option<Pending>, trades: seq<Trade>, level: int) {
    && (pending.Some? ==> pending.value.level != level)
    && forall i :: 0 <= i < |trades| ==> trades[i].TradeLevel() != level
  }

  /** And it is told so once. */
  lemma {:induction false} RenderGroups(side: SideType, pending: Option<Pending>, trades: seq<Trade>, level: int,
                                        id: OrderId)
    requires TradesOf(trades, id) && (pending.Some? ==> pending.value.aggr.orderId == id)
    requires Grouped(side, pending, trades)
    ensures Times(Render(pending, trades), IndexToPrice(level), id) <= (if NoneAt(pending, trades, level) then 0 else 1)
    decreases |trades|
  {
    FlushAnnounces(pending, level, id);
    if trades != [] {
      var t, rest := trades[0], trades[1..];
      var price := IndexToPrice(level);
      var before, ext := FlushBefore(pending, t), Some(Extend(pending, t));
      assert Grouped(side, ext, rest);
      RenderGroups(side, ext, rest, level, id);
      RestingAnnounces(t, level, id);
      assert NoneAt(pending, trades, level) ==> NoneAt(ext, rest, level);
      if before != [] && pending.Some? && pending.value.level == level {
        assert NoneAt(ext, rest, level);
      }
      hide RestingEvent, IndexToPrice, Flush, Grouped, NoneAt;
      AnnouncedConcat(before, [RestingEvent(t)], price, id, true);
      AnnouncedConcat(before + [RestingEvent(t)], Render(ext, rest), price, id, true);
    }
  }

  // ----- The order of the events

  /**
   * A later price is no better for the incoming order; and worse, if the earlier one is that of its own event.  To be
   * Unfilled has no price, and comes last.
   */
  predicate MayFollow(side: SideType, earlier: FillEvent, later: FillEvent, id: OrderId) {
    earlier.snapshot.status != Unfilled &&
    (later.snapshot.status == Unfilled ||
     (&& (if side.SELL? then later.price <= earlier.price else earlier.price <= later.price)
      && (earlier.snapshot.orderId == id ==> later.price != earlier.price)))
  }

  ghost predicate InPriceOrder(side: SideType, events: seq<FillEvent>, id: OrderId) {
    forall i, j :: 0 <= i < j < |events| ==> MayFollow(side, events[i], events[j], id)
  }

  /** No price of these events is better than that of a level. */
  ghost predicate NoneBetter(side: SideType, events: seq<FillEvent>, level: int) {
    forall i :: 0 <= i < |events| ==>
      if side.SELL? then events[i].price <= IndexToPrice(level) else IndexToPrice(level) <= events[i].price
  }

  ghost predicate NoneUnfilled(events: seq<FillEvent>) {
    forall i :: 0 <= i < |events| ==> events[i].snapshot.status != Unfilled
  }

  lemma OneBefore(side: SideType, e: FillEvent, rest: seq<FillEvent>, id: OrderId)
    requires InPriceOrder(side, rest, id) && forall i :: 0 <= i < |rest| ==> MayFollow(side, e, rest[i], id)
    ensures InPriceOrder(side, [e] + rest, id)
  {
    hide MayFollow;
  }

  predicate NeverUnfilled(trades: seq<Trade>) {
    forall i :: 0 <= i < |trades| ==> trades[i].aggr.status != Unfilled
  }

  lemma {:induction false} RenderInOrder(side: SideType, pending: Option<Pending>, trades: seq<Trade>, id: OrderId,
                                         bound: int)
    requires TradesOf(trades, id) && (pending.Some? ==> pending.value.aggr.orderId == id)
    requires Grouped(side, pending, trades) && NeverUnfilled(trades)
    requires pending.Some? ==> !Better(side, pending.value.level, bound) && pending.value.aggr.status != Unfilled
    requires forall i :: 0 <= i < |trades| ==> !Better(side, trades[i].TradeLevel(), bound)
    ensures InPriceOrder(side, Render(pending, trades), id) && NoneBetter(side, Render(pending, trades), bound)
    ensures NoneUnfilled(Render(pending, trades))
    decreases |trades|
  {
    if trades == [] {
      if pending.Some? {
        IndexToPriceIsMonotone(pending.value.level, bound);
        IndexToPriceIsMonotone(bound, pending.value.level);
      }
    } else {
      var t, rest := trades[0], trades[1..];
      var ext := Some(Extend(pending, t));
      var later := Render(ext, rest);
      assert Grouped(side, ext, rest);
      RenderInOrder(side, ext, rest, id, t.TradeLevel());
      hide Grouped, TradesOf;
      RestingFirst(side, t, later, id, bound);
      if pending.Some? && pending.value.level != t.TradeLevel() {
        FlushFirst(side, pending.value, t, [RestingEvent(t)] + later, id, bound);
        assert Render(pending, trades) == Flush(pending) + ([RestingEvent(t)] + later);
      } else {
        assert Render(pending, trades) == [RestingEvent(t)] + later;
      }
    }
  }

  lemma RestingFirst(side: SideType, t: Trade, later: seq<FillEvent>, id: OrderId, bound: int)
    requires t.Valid() && t.resting.orderId != id && !Better(side, t.TradeLevel(), bound)
    requires InPriceOrder(side, later, id) && NoneBetter(side, later, t.TradeLevel())
    ensures InPriceOrder(side, [RestingEvent(t)] + later, id)
    ensures NoneBetter(side, [RestingEvent(t)] + later, t.TradeLevel())
    ensures NoneBetter(side, [RestingEvent(t)] + later, bound)
  {
    IndexToPriceIsMonotone(t.TradeLevel(), bound);
    IndexToPriceIsMonotone(bound, t.TradeLevel());
    hide IndexToPrice;
    OneBefore(side, RestingEvent(t), later, id);
  }

  lemma FlushFirst(side: SideType, pending: Pending, t: Trade, later: seq<FillEvent>, id: OrderId, bound: int)
    requires pending.aggr.orderId == id && pending.level != t.TradeLevel() && pending.aggr.status != Unfilled
    requires !Better(side, t.TradeLevel(), pending.level) && !Better(side, pending.level, bound)
    requires InPriceOrder(side, later, id) && NoneBetter(side, later, t.TradeLevel())
    ensures InPriceOrder(side, Flush(Some(pending)) + later, id)
    ensures NoneBetter(side, Flush(Some(pending)) + later, bound)
  {
    var flush := Flush(Some(pending));
    IndexToPriceIsMonotone(pending.level, bound);
    IndexToPriceIsMonotone(bound, pending.level);
    IndexToPriceIsMonotone(pending.level, t.TradeLevel());
    IndexToPriceIsMonotone(t.TradeLevel(), pending.level);
    hide IndexToPrice;
    if flush == [] {
      assert flush + later == later;
    } else {
      assert flush == [flush[0]] && flush[0].price == IndexToPrice(pending.level) && flush[0].snapshot.orderId == id;
      OneBefore(side, flush[0], later, id);
    }
  }

  // ----- A whole submission

  lemma {:induction false} MatchTradesOf(prod: bool, book: seq<Order>, aggr: Order)
    requires UniqueIds(book + [aggr])
    ensures TradesOf(Match(prod, book, aggr).trades, aggr.orderId)
    decreases |book|
  {
    var best := Best(prod, book, aggr);
    if best.Some? {
      var p := best.value;
      var q := TradeQty(book, aggr, p);
      MatchStep(prod, book, aggr, p);
      assert (book + [aggr])[p].orderId != (book + [aggr])[|book|].orderId;
      if Fill(aggr, q).qtyRemaining != 0 {
        UniqueAfterTrade(book, p, q, aggr, Fill(aggr, q));
        MatchTradesOf(prod, AfterTrade(book, p, q), Fill(aggr, q));
      }
    }
  }

  /**
   * At every price at which an incoming order trades, its own events announce the sum of the resting
   * orders' fills, in a single fill.
   */
  lemma FillsAreGrouped(prod: bool, book: seq<Order>, aggr: Order, level: int)
    requires UniqueIds(book + [aggr])
    ensures
      var events, price, id := Submit(prod, book, aggr).events, IndexToPrice(level), aggr.orderId;
      && Announced(events, price, id, true) == Announced(events, price, id, false)
      && Times(events, price, id) <= 1
  {
    hide Match, Render, Announced, Times, IndexToPrice;
    var m := Match(prod, book, aggr);
    var last, price, id := Finish(m.book, m.aggr, m.trades != []).events, IndexToPrice(level), aggr.orderId;
    MatchTradesOf(prod, book, aggr);
    MatchWorsens(prod, book, aggr);
    RenderBalances(None, m.trades, level, id);
    RenderGroups(aggr.side, None, m.trades, level, id);
    LastAnnouncesNothing(m.book, m.aggr, m.trades != [], price, id);
    AnnouncedConcat(Render(None, m.trades), last, price, id, true);
    AnnouncedConcat(Render(None, m.trades), last, price, id, false);
    NothingAnnounced(price, id);
  }

  lemma NothingAnnounced(price: Price, id: OrderId)
    ensures Announced([], price, id, true) == Announced([], price, id, false) == Times([], price, id) == 0
  {
  }

  lemma LastAnnouncesNothing(book: seq<Order>, aggr: Order, traded: bool, price: Price, id: OrderId)
    ensures
      var last := Finish(book, aggr, traded).events;
      Announced(last, price, id, true) == Announced(last, price, id, false) == Times(last, price, id) == 0
  {
    var last := Finish(book, aggr, traded).events;
    assert last != [] ==> last[1..] == [];
  }

  /**
   * The events of an incoming order come price by price, which gets worse for it, and at each price its own event comes
   * last.
   */
  lemma FillsAreInOrder(prod: bool, book: seq<Order>, aggr: Order)
    requires UniqueIds(book + [aggr])
    ensures InPriceOrder(aggr.side, Submit(prod, book, aggr).events, aggr.orderId)
  {
    hide Match, Render, IndexToPrice;
    var m := Match(prod, book, aggr);
    var last := Finish(m.book, m.aggr, m.trades != []).events;
    MatchTradesOf(prod, book, aggr);
    MatchWorsens(prod, book, aggr);
    MatchedStatuses(prod, book, aggr);
    if m.trades == [] {
      assert Render(None, m.trades) == [] by { NothingToRender(); }
      assert |last| <= 1;
    } else {
      RenderInOrder(aggr.side, None, m.trades, aggr.orderId, m.trades[0].TradeLevel());
      assert NoneUnfilled(Render(None, m.trades));
      LastInOrder(aggr.side, Render(None, m.trades), last, aggr.orderId);
    }
  }

  lemma NothingToRender()
    ensures Render(None, []) == []
  {
  }

  lemma LastInOrder(side: SideType, fills: seq<FillEvent>, last: seq<FillEvent>, id: OrderId)
    requires InPriceOrder(side, fills, id) && NoneUnfilled(fills)
    requires |last| <= 1 && (last != [] ==> last[0].snapshot.status == Unfilled)
    ensures InPriceOrder(side, fills + last, id)
  {
    assert forall i :: 0 <= i < |fills| ==> (fills + last)[i] == fills[i];
  }

  lemma {:induction false} MatchedStatuses(prod: bool, book: seq<Order>, aggr: Order)
    ensures NeverUnfilled(Match(prod, book, aggr).trades)
    decreases |book|
  {
    var best := Best(prod, book, aggr);
    if best.Some? {
      var q := TradeQty(book, aggr, best.value);
      if q < aggr.qtyRemaining {
        MatchedStatuses(prod, AfterTrade(book, best.value, q), Fill(aggr, q));
      }
    }
  }
}
