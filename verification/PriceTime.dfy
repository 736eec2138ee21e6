/**
 * Price-time priority, said on a flat book.  The book is the sequence of resting orders in
 * the order in which they came to rest; there are no price levels, no cached best prices
 * and no index.  An incoming order repeatedly trades with the best order it may trade with.
 * The matching engine's arrays of linked lists are proved to do exactly this.
 */
module PriceTime {
  import opened Options
  import opened TradingTypes
  import opened Ticks

  function Level(o: Order): int {
    PriceToIndex(o.price)
  }

  /** Is a resting order's level within the incoming order's limit?  A market order has none. */
  predicate Crosses(aggr: Order, resting: Order)
  {
    aggr.priceType.MARKET? ||
    (if aggr.side.SELL? then Level(aggr) <= Level(resting) else Level(resting) <= Level(aggr))
  }

  /** With prod, orders of one session do not trade with each other. */
  predicate Eligible(prod: bool, aggr: Order, resting: Order)
  {
    resting.side != aggr.side && Crosses(aggr, resting) && (prod ==> resting.sessionId != aggr.sessionId)
  }

  /** For an incoming sell the highest bid is best; for an incoming buy, the lowest ask. */
  predicate Better(aggrSide: SideType, level: int, other: int) {
    if aggrSide.SELL? then other < level else level < other
  }

  /** May book[p] trade before book[q]: a strictly better price, or the same price and no later. */
  predicate Ahead(aggrSide: SideType, book: seq<Order>, p: nat, q: nat)
    requires p < |book| && q < |book|
  {
    Better(aggrSide, Level(book[p]), Level(book[q])) || (Level(book[p]) == Level(book[q]) && p <= q)
  }

  ghost predicate IsBest(prod: bool, book: seq<Order>, aggr: Order, p: int)
  {
    && 0 <= p < |book|
    && Eligible(prod, aggr, book[p])
    && forall q :: 0 <= q < |book| && Eligible(prod, aggr, book[q]) ==> Ahead(aggr.side, book, p, q)
  }

  /** The position of the best eligible order, if there is an eligible order at all. */
  function Best(prod: bool, book: seq<Order>, aggr: Order): (best: Option<nat>)
    ensures best.Some? ==> IsBest(prod, book, aggr, best.value)
    ensures best.None? ==> forall q :: 0 <= q < |book| ==> !Eligible(prod, aggr, book[q])
  {
    if book == [] then None
    else
      var n := |book| - 1;
      var earlier := Best(prod, book[..n], aggr);
      if Eligible(prod, aggr, book[n]) &&
         (earlier.None? || Better(aggr.side, Level(book[n]), Level(book[earlier.value])))
      then Some(n) else earlier
  }

  /** An order after trading a quantity. */
  function Fill(o: Order, q: nat): Order
    requires q <= o.qtyRemaining
  {
    o.(qtyRemaining := o.qtyRemaining - q, status := if o.qtyRemaining == q then Filled else PartiallyFilled)
  }

  /** One trade: the resting order before it, the quantity, and the incoming order after it. */
  datatype Trade = Trade(resting: Order, qty: nat, aggr: Order) {
    predicate Valid() {
      qty <= resting.qtyRemaining
    }
    function TradeLevel(): int {
      Level(resting)
    }
  }

  datatype Outcome = Outcome(book: seq<Order>, aggr: Order, trades: seq<Trade>)

  function TradeQty(book: seq<Order>, aggr: Order, p: nat): nat
    requires p < |book|
  {
    Min(book[p].qtyRemaining, aggr.qtyRemaining)
  }

  /** A filled order leaves the book; any other keeps its place in it. */
  function AfterTrade(book: seq<Order>, p: nat, q: nat): (book': seq<Order>)
    requires p < |book| && q <= book[p].qtyRemaining
  {
    if q == book[p].qtyRemaining then book[..p] + book[p + 1..] else book[p := Fill(book[p], q)]
  }

  /** Trade with the best eligible order until there is none or the incoming order is filled. */
  function Match(prod: bool, book: seq<Order>, aggr: Order): (r: Outcome)
    ensures forall i :: 0 <= i < |r.trades| ==> r.trades[i].Valid()
    ensures r.aggr == aggr.(qtyRemaining := r.aggr.qtyRemaining, status := r.aggr.status)
    ensures r.trades == [] ==> r.aggr == aggr && r.book == book
    decreases |book|
  {
    var best := Best(prod, book, aggr);
    if best.None? then Outcome(book, aggr, [])
    else
      var p := best.value;
      var q := TradeQty(book, aggr, p);
      var aggr', book' := Fill(aggr, q), AfterTrade(book, p, q);
      var trade := Trade(book[p], q, aggr');
      if aggr'.qtyRemaining == 0 then Outcome(book', aggr', [trade])
      else
        var rest := Match(prod, book', aggr');
        rest.(trades := [trade] + rest.trades)
  }

  /** The states in which an order may rest. */
  predicate RestingStates(book: seq<Order>) {
    forall i :: 0 <= i < |book| ==> book[i].priceType.LIMIT? && book[i].status in {Accepted, PartiallyFilled}
  }

  lemma AfterTradeKeepsStates(book: seq<Order>, p: nat, q: nat)
    requires p < |book| && q <= book[p].qtyRemaining && RestingStates(book)
    ensures RestingStates(AfterTrade(book, p, q))
  {
  }

  lemma RestingStatesErase(book: seq<Order>, p: nat)
    requires p < |book| && RestingStates(book)
    ensures RestingStates(book[..p] + book[p + 1..])
  {
  }

  lemma RestingStatesAppend(book: seq<Order>, o: Order)
    requires RestingStates(book) && o.priceType.LIMIT? && o.status in {Accepted, PartiallyFilled}
    ensures RestingStates(book + [o])
  {
  }

  // ----- The events of a match

  /** The event of a resting order: its own fill, and whether its status is a new one. */
  function RestingEvent(t: Trade): FillEvent
    requires t.Valid()
  {
    var after := Fill(t.resting, t.qty);
    FillEvent(IndexToPrice(t.TradeLevel()), t.qty, Snapshot(after), after.status != t.resting.status)
  }

  /** Trades of the incoming order at one level, not yet announced. */
  datatype Pending = Pending(level: int, qty: nat, aggr: Order)

  /** Announce them as one fill; nothing was traded and the order lives on: no event. */
  function Flush(pending: Option<Pending>): seq<FillEvent> {
    match pending
    case None => []
    case Some(Pending(level, qty, aggr)) =>
      if aggr.qtyRemaining == 0 then [FillEvent(IndexToPrice(level), qty, Snapshot(aggr), aggr.qty != 0)]
      else if qty > 0 then [FillEvent(IndexToPrice(level), qty, Snapshot(aggr), true)]
      else []
  }

  function Extend(pending: Option<Pending>, t: Trade): Pending
    requires t.Valid()
  {
    var level := t.TradeLevel();
    if pending.Some? && pending.value.level == level then Pending(level, pending.value.qty + t.qty, t.aggr)
    else Pending(level, t.qty, t.aggr)
  }

  /** What is announced before trade t when t is at another level. */
  function FlushBefore(pending: Option<Pending>, t: Trade): seq<FillEvent>
    requires t.Valid()
  {
    if pending.Some? && pending.value.level == t.TradeLevel() then [] else Flush(pending)
  }

  /** One event for every resting fill, and one for the incoming order at each price. */
  function Render(pending: Option<Pending>, trades: seq<Trade>): seq<FillEvent>
    requires forall i :: 0 <= i < |trades| ==> trades[i].Valid()
    decreases |trades|
  {
    if trades == [] then Flush(pending)
    else
      FlushBefore(pending, trades[0]) + [RestingEvent(trades[0])] +
      Render(Some(Extend(pending, trades[0])), trades[1..])
  }

  // ----- An incoming order from start to end

  /** Nothing rests on the side the order would trade with. */
  predicate NoOpposite(book: seq<Order>, aggr: Order) {
    forall i :: 0 <= i < |book| ==> book[i].side == aggr.side
  }

  datatype Result = Result(book: seq<Order>, events: seq<FillEvent>)

  /** What becomes of the incoming order once it can trade no more. */
  function Finish(book: seq<Order>, aggr: Order, traded: bool): (r: Result) {
    if traded && aggr.qtyRemaining == 0 then Result(book, [])
    else if aggr.priceType.LIMIT? then Result(book + [aggr], [])
    else if aggr.qty == aggr.qtyRemaining then
      Result(book, [FillEvent(0.0, 0, Snapshot(aggr.(status := Unfilled)), true)])
    else Result(book, [])
  }

  /** Match from a point where some trades, the pending ones among them, were already made. */
  function Resume(prod: bool, book: seq<Order>, aggr: Order, pending: Option<Pending>, traded: bool): (r: Result)
  {
    var m := Match(prod, book, aggr);
    var last := Finish(m.book, m.aggr, traded || m.trades != []);
    last.(events := Render(pending, m.trades) + last.events)
  }

  function Submit(prod: bool, book: seq<Order>, aggr: Order): (r: Result)
  {
    if aggr.priceType.MARKET? && NoOpposite(book, aggr) then Result(book, [])
    else Resume(prod, book, aggr, None, false)
  }

  // ----- The best price of a side

  /** The order of a side with its best price, and among those the one that came first. */
  ghost predicate IsTop(book: seq<Order>, side: SideType, p: int) {
    && 0 <= p < |book| && book[p].side == side
    && forall q :: 0 <= q < |book| && book[q].side == side ==> Ahead(Opposite(side), book, p, q)
  }

  /** The price of that order, or the marker for an empty side. */
  ghost predicate BestAgrees(book: seq<Order>, side: SideType, best: Price, none: Price) {
    if (forall q :: 0 <= q < |book| ==> book[q].side != side) then best == none
    else exists p :: IsTop(book, side, p) && book[p].price == best
  }

  // ----- Cancelling

  predicate Resting(book: seq<Order>, id: OrderId) {
    exists i :: 0 <= i < |book| && book[i].orderId == id
  }

  /** The book without an order; the others keep their relative order. */
  function Without(book: seq<Order>, id: OrderId): seq<Order>
  {
    if book == [] then []
    else if book[0].orderId == id then Without(book[1..], id)
    else [book[0]] + Without(book[1..], id)
  }

  ghost predicate UniqueIds(book: seq<Order>) {
    forall i, j :: 0 <= i < j < |book| ==> book[i].orderId != book[j].orderId
  }

  lemma WithoutAbsent(book: seq<Order>, id: OrderId)
    requires forall i :: 0 <= i < |book| ==> book[i].orderId != id
    ensures Without(book, id) == book
  {
  }

  lemma CutBehindFirst(s: seq<Order>, p: nat)
    requires 0 < p < |s|
    ensures [s[0]] + (s[1..][..p - 1] + s[1..][p..]) == s[..p] + s[p + 1..]
  {
    var front, back := s[1..p], s[p + 1..];
    assert s[1..][..p - 1] == front && s[1..][p..] == back;
    assert [s[0]] + front == s[..p];
    assert [s[0]] + (front + back) == ([s[0]] + front) + back;
  }

  lemma {:induction false} WithoutAt(book: seq<Order>, p: nat)
    requires p < |book| && UniqueIds(book)
    ensures Without(book, book[p].orderId) == book[..p] + book[p + 1..]
  {
    var id, rest := book[p].orderId, book[1..];
    assert forall i :: 0 <= i < |rest| ==> rest[i] == book[i + 1];
    if p == 0 {
      WithoutAbsent(rest, id);
      assert book[..0] + rest == rest;
    } else {
      assert Without(book, id) == [book[0]] + Without(rest, id);
      WithoutAt(rest, p - 1);
      hide Without, UniqueIds;
      CutBehindFirst(book, p);
    }
  }

  // ----- Clearing

  function DoneEvents(orders: seq<Order>): (r: seq<FillEvent>)
    ensures |r| == |orders|
    ensures forall i :: 0 <= i < |orders| ==> r[i] == FillEvent(0.0, 0, Snapshot(orders[i].(status := Done)), true)
  {
    if orders == [] then []
    else [FillEvent(0.0, 0, Snapshot(orders[0].(status := Done)), true)] + DoneEvents(orders[1..])
  }

  function LevelOrders(book: seq<Order>, side: SideType, i: int): seq<Order> {
    if book == [] then []
    else (if book[0].side == side && Level(book[0]) == i then [book[0]] else []) + LevelOrders(book[1..], side, i)
  }

  /** One Done for each order of the first n levels of a side, level by level from the lowest. */
  function ClearedEvents(book: seq<Order>, side: SideType, n: nat): seq<FillEvent> {
    if n == 0 then [] else ClearedEvents(book, side, n - 1) + DoneEvents(LevelOrders(book, side, n - 1))
  }

  // The events of a side depend on the orders of that side alone.
  lemma ClearedEventsOfSide(book: seq<Order>, book': seq<Order>, side: SideType, n: nat)
    requires |book| == |book'|
    requires forall q :: 0 <= q < |book| ==>
      book'[q].side == book[q].side && (book[q].side == side ==> book'[q] == book[q])
    ensures ClearedEvents(book', side, n) == ClearedEvents(book, side, n)
  {
    hide LevelOrders, DoneEvents;
    if n != 0 {
      ClearedEventsOfSide(book, book', side, n - 1);
      LevelOrdersOfSide(book, book', side, n - 1);
    }
  }

  lemma LevelOrdersOfSide(book: seq<Order>, book': seq<Order>, side: SideType, i: int)
    requires |book| == |book'|
    requires forall q :: 0 <= q < |book| ==>
      book'[q].side == book[q].side && (book[q].side == side ==> book'[q] == book[q])
    ensures LevelOrders(book', side, i) == LevelOrders(book, side, i)
  {
  }

  // ----- Matching, one trade at a time

  lemma BestIsUnique(prod: bool, book: seq<Order>, aggr: Order, p: nat)
    requires IsBest(prod, book, aggr, p)
    ensures Best(prod, book, aggr) == Some(p)
  {
    var best := Best(prod, book, aggr);
    assert Ahead(aggr.side, book, p, best.value) && Ahead(aggr.side, book, best.value, p);
  }

  // Match, unfolded once.
  lemma MatchStep(prod: bool, book: seq<Order>, aggr: Order, p: nat)
    requires p < |book| && IsBest(prod, book, aggr, p)
    ensures
      var q := TradeQty(book, aggr, p);
      var aggr', book' := Fill(aggr, q), AfterTrade(book, p, q);
      Match(prod, book, aggr) ==
        if aggr.qtyRemaining <= book[p].qtyRemaining then Outcome(book', aggr', [Trade(book[p], q, aggr')])
        else var rest := Match(prod, book', aggr'); rest.(trades := [Trade(book[p], q, aggr')] + rest.trades)
  {
    BestIsUnique(prod, book, aggr, p);
    hide IsBest, Best, AfterTrade;
  }

  // A trade with the best order that leaves the incoming order alive is one step of Resume.
  lemma ResumeTrade(prod: bool, book: seq<Order>, aggr: Order, pending: Option<Pending>, traded: bool, p: nat)
    requires p < |book| && IsBest(prod, book, aggr, p)
    ensures
      var q := TradeQty(book, aggr, p);
      var t := Trade(book[p], q, Fill(aggr, q));
      var book' := AfterTrade(book, p, q);
      var news := FlushBefore(pending, t) + [RestingEvent(t)];
      Resume(prod, book, aggr, pending, traded) ==
        if t.aggr.qtyRemaining == 0 then Result(book', news + Flush(Some(Extend(pending, t))))
        else var r := Resume(prod, book', t.aggr, Some(Extend(pending, t)), true); r.(events := news + r.events)
  {
    hide IsBest, Eligible, AfterTrade, RestingEvent, Best, Match;
    MatchStep(prod, book, aggr, p);
    var q := TradeQty(book, aggr, p);
    var t := Trade(book[p], q, Fill(aggr, q));
    var book' := AfterTrade(book, p, q);
    var news := FlushBefore(pending, t) + [RestingEvent(t)];
    var ext := Some(Extend(pending, t));
    var m := Match(prod, book, aggr);
    if t.aggr.qtyRemaining == 0 {
      assert m.trades == [t] && m.trades[1..] == [];
      assert Render(pending, m.trades) == news + Flush(ext);
    } else {
      var m' := Match(prod, book', t.aggr);
      assert m.trades == [t] + m'.trades && m.trades[1..] == m'.trades;
      assert Render(pending, m.trades) == news + Render(ext, m'.trades);
      var last := Finish(m.book, m.aggr, true);
      assert (news + Render(ext, m'.trades)) + last.events == news + (Render(ext, m'.trades) + last.events);
    }
  }

  // When nothing is eligible any more, what is pending is announced and the order is finished.
  lemma ResumeEnd(prod: bool, book: seq<Order>, aggr: Order, pending: Option<Pending>, traded: bool)
    requires forall q :: 0 <= q < |book| ==> !Eligible(prod, aggr, book[q])
    ensures
      var last := Finish(book, aggr, traded);
      Resume(prod, book, aggr, pending, traded) == last.(events := Flush(pending) + last.events)
  {
    assert Best(prod, book, aggr).None?;
  }

  // When no eligible order is left at the pending level, the fills there can be announced.
  lemma ResumeFlush(prod: bool, book: seq<Order>, aggr: Order, pending: Pending, traded: bool)
    requires forall q :: 0 <= q < |book| && Eligible(prod, aggr, book[q]) ==> Level(book[q]) != pending.level
    ensures
      var r := Resume(prod, book, aggr, None, traded);
      Resume(prod, book, aggr, Some(pending), traded) == r.(events := Flush(Some(pending)) + r.events)
  {
    var m := Match(prod, book, aggr);
    var last := Finish(m.book, m.aggr, traded || m.trades != []);
    assert Render(Some(pending), m.trades) == Flush(Some(pending)) + Render(None, m.trades);
    assert (Flush(Some(pending)) + Render(None, m.trades)) + last.events ==
      Flush(Some(pending)) + (Render(None, m.trades) + last.events);
  }

  /** From here, with these events already sent, the rest of the match leads to the total. */
  ghost predicate LeadsTo(prod: bool, total: Result, sent: seq<FillEvent>, book: seq<Order>, aggr: Order,
                          pending: Option<Pending>, traded: bool)
  {
    var r := Resume(prod, book, aggr, pending, traded);
    total == r.(events := sent + r.events)
  }

  lemma TradeLeadsOn(prod: bool, total: Result, sent: seq<FillEvent>, book: seq<Order>, aggr: Order,
                     pending: Option<Pending>, traded: bool, p: nat, q: nat, aggr': Order, pending': Pending)
    requires p < |book| && IsBest(prod, book, aggr, p)
    requires LeadsTo(prod, total, sent, book, aggr, pending, traded)
    requires pending.None? || pending.value.level == Level(book[p])
    requires q == TradeQty(book, aggr, p) && aggr' == Fill(aggr, q)
    requires pending' == Pending(Level(book[p]), q + (if pending.Some? then pending.value.qty else 0), aggr')
    ensures
      var book', sent' := AfterTrade(book, p, q), sent + [RestingEvent(Trade(book[p], q, aggr'))];
      if aggr'.qtyRemaining == 0 then total == Result(book', sent' + Flush(Some(pending')))
      else LeadsTo(prod, total, sent', book', aggr', Some(pending'), true)
  {
    hide Resume, Match, Render, Best, IsBest, AfterTrade, RestingEvent;
    ResumeTrade(prod, book, aggr, pending, traded, p);
    var t := Trade(book[p], q, aggr');
    var book' := AfterTrade(book, p, q);
    var news := FlushBefore(pending, t) + [RestingEvent(t)];
    assert news == [RestingEvent(t)] && Extend(pending, t) == pending';
    assert sent + (news + Flush(Some(pending'))) == (sent + news) + Flush(Some(pending'));
    if aggr'.qtyRemaining != 0 {
      var r := Resume(prod, book', aggr', Some(pending'), true);
      assert sent + (news + r.events) == (sent + news) + r.events;
    }
  }

  lemma FlushLeadsOn(prod: bool, total: Result, sent: seq<FillEvent>, book: seq<Order>, aggr: Order,
                     pending: Pending, traded: bool)
    requires LeadsTo(prod, total, sent, book, aggr, Some(pending), traded)
    requires forall q :: 0 <= q < |book| && Eligible(prod, aggr, book[q]) ==> Level(book[q]) != pending.level
    ensures LeadsTo(prod, total, sent + Flush(Some(pending)), book, aggr, None, traded)
  {
    ResumeFlush(prod, book, aggr, pending, traded);
    var r := Resume(prod, book, aggr, None, traded);
    assert sent + (Flush(Some(pending)) + r.events) == (sent + Flush(Some(pending))) + r.events;
  }

  lemma EndLeadsOn(prod: bool, total: Result, sent: seq<FillEvent>, book: seq<Order>, aggr: Order, traded: bool)
    requires LeadsTo(prod, total, sent, book, aggr, None, traded)
    requires forall q :: 0 <= q < |book| ==> !Eligible(prod, aggr, book[q])
    ensures var last := Finish(book, aggr, traded); total == last.(events := sent + last.events)
  {
    ResumeEnd(prod, book, aggr, None, traded);
    var last := Finish(book, aggr, traded);
    assert [] + last.events == last.events;
  }
}
