/** The edges of the engine's behaviour: empty orders, unfilled market orders, repeated flags, clearing. */
module EngineEdges {
  import opened Options
  import opened TradingTypes
  import opened Ticks
  import opened PriceTime
  import opened PriceTimeLaws
  import opened EngineRuns
  import opened EngineStatus

  // ----- Orders for nothing

  ghost predicate LiveBook(book: seq<Order>) {
    forall i :: 0 <= i < |book| ==> Live(book[i])
  }

  /** When an order for a quantity of zero leaves every resting order's status right, whatever is announced. */
  predicate StaysLiveWhenEmpty(prod: bool, book: seq<Order>, aggr: Order) {
    var best := Best(prod, book, aggr);
    if best.None? then aggr.priceType.MARKET? else book[best.value].status == PartiallyFilled
  }

  lemma AfterTradeStaysLive(book: seq<Order>, p: nat, q: nat)
    requires LiveBook(book) && p < |book| && 0 < q <= book[p].qtyRemaining
    ensures LiveBook(AfterTrade(book, p, q))
  {
  }

  lemma {:induction false} MatchStaysLive(prod: bool, book: seq<Order>, aggr: Order)
    requires LiveBook(book) && Live(aggr)
    ensures var m := Match(prod, book, aggr);
      LiveBook(m.book) && (m.aggr.qtyRemaining == 0 || Live(m.aggr)) && (m.aggr.qtyRemaining == 0 ==> m.trades != [])
    decreases |book|
  {
    var best := Best(prod, book, aggr);
    if best.Some? {
      var q := TradeQty(book, aggr, best.value);
      AfterTradeStaysLive(book, best.value, q);
      if q < aggr.qtyRemaining {
        MatchStaysLive(prod, AfterTrade(book, best.value, q), Fill(aggr, q));
      }
    }
  }

  // Validation lets a quantity of zero through.  The statuses of the resting orders, though not the
  // announcements, survive a new order exactly when it asks for something or its best match was traded before.
  lemma LiveIffNotEmpty(prod: bool, book: seq<Order>, aggr: Order)
    requires LiveBook(book) && aggr.qtyRemaining == aggr.qty && aggr.status == Accepted
    ensures LiveBook(Submit(prod, book, aggr).book) <==> 0 < aggr.qty || StaysLiveWhenEmpty(prod, book, aggr)
  {
    hide Render;
    var m, best := Match(prod, book, aggr), Best(prod, book, aggr);
    if 0 < aggr.qty {
      MatchStaysLive(prod, book, aggr);
    } else if best.None? {
      if aggr.priceType.LIMIT? {
        assert Submit(prod, book, aggr).book == book + [aggr];
        assert !Live((book + [aggr])[|book|]);
      }
    } else {
      var p := best.value;
      assert book[p].side != aggr.side;
      assert m.book == book[p := Fill(book[p], 0)];
      assert Submit(prod, book, aggr).book == m.book;
      assert Live(m.book[p]) <==> book[p].status == PartiallyFilled;
      assert forall i :: 0 <= i < |book| && i != p ==> m.book[i] == book[i];
    }
  }

  // Such an order makes an untraded bid PartiallyFilled.
  lemma EmptyOrderDoesHarm()
    ensures
      var bid := Order(1, 1, BUY, LIMIT, 1.0, 10, 10, Accepted);
      var ask := Order(2, 2, SELL, LIMIT, 1.0, 0, 0, Accepted);
      var r := Submit(false, [bid], ask);
      && LiveBook([bid])
      && r.book == [bid.(status := PartiallyFilled)]
      && r.events[0] == FillEvent(1.0, 0, OrderSnapshot(1, 10, 10, PartiallyFilled), true)
  {
    var bid := Order(1, 1, BUY, LIMIT, 1.0, 10, 10, Accepted);
    var ask := Order(2, 2, SELL, LIMIT, 1.0, 0, 0, Accepted);
    assert TICKS_PER_DOLLAR == 100;
    assert Level(bid) == 100;
    assert IsBest(false, [bid], ask, 0);
    ResumeTrade(false, [bid], ask, None, false, 0);
    assert IndexToPrice(100) == 1.0;
  }

  // ----- Market orders nobody took

  /** Is the order told it is Unfilled? */
  predicate ToldUnfilled(events: seq<FillEvent>) {
    exists k :: 0 <= k < |events| && events[k].snapshot.status == Unfilled
  }

  lemma {:induction false} TradesNeverUnfilled(pending: Option<Pending>, trades: seq<Trade>)
    requires forall i :: 0 <= i < |trades| ==> trades[i].Valid() && trades[i].aggr.status != Unfilled
    requires pending.Some? ==> pending.value.aggr.status != Unfilled
    ensures !ToldUnfilled(Render(pending, trades))
    decreases |trades|
  {
    if trades != [] {
      TradesNeverUnfilled(Some(Extend(pending, trades[0])), trades[1..]);
    }
  }

  lemma {:induction false} TradesFill(prod: bool, book: seq<Order>, aggr: Order)
    ensures
      var trades := Match(prod, book, aggr).trades;
      && (forall i :: 0 <= i < |trades| ==> trades[i].aggr.status != Unfilled)
      && (trades == [] <==> Best(prod, book, aggr).None?)
    decreases |book|
  {
    var best := Best(prod, book, aggr);
    if best.Some? {
      var q := TradeQty(book, aggr, best.value);
      if q < aggr.qtyRemaining {
        TradesFill(prod, AfterTrade(book, best.value, q), Fill(aggr, q));
      }
    }
  }

  lemma ToldInEither(a: seq<FillEvent>, b: seq<FillEvent>)
    ensures ToldUnfilled(a + b) <==> ToldUnfilled(a) || ToldUnfilled(b)
  {
    assert forall k :: 0 <= k < |a| ==> (a + b)[k] == a[k];
    assert forall k :: 0 <= k < |b| ==> (a + b)[|a| + k] == b[k];
    if k :| 0 <= k < |b| && b[k].snapshot.status == Unfilled {
      assert (a + b)[|a| + k].snapshot.status == Unfilled;
    }
    if k :| 0 <= k < |a| && a[k].snapshot.status == Unfilled {
      assert (a + b)[k].snapshot.status == Unfilled;
    }
  }

  lemma ToldAtTheEnd(book: seq<Order>, aggr: Order, traded: bool)
    ensures ToldUnfilled(Finish(book, aggr, traded).events) <==>
      aggr.priceType.MARKET? && aggr.qty == aggr.qtyRemaining && !(traded && aggr.qtyRemaining == 0)
  {
    var events := Finish(book, aggr, traded).events;
    if events != [] {
      assert events[0].snapshot.status == Unfilled;
    }
  }

  /**
   * A new order is told it is Unfilled if and only if it is a market order with orders on the other side, but none
   * that it may trade with has anything left; or, if it asks for nothing itself, there is none at all.
   */
  lemma UnfilledIff(prod: bool, book: seq<Order>, aggr: Order)
    requires aggr.qtyRemaining == aggr.qty
    ensures ToldUnfilled(Submit(prod, book, aggr).events) <==>
      && aggr.priceType.MARKET? && !NoOpposite(book, aggr)
      && if aggr.qty > 0 then EligibleQty(prod, book, aggr) == 0 else Best(prod, book, aggr).None?
  {
    hide Match, Render, NoOpposite, Best;
    var m := Match(prod, book, aggr);
    var traded := m.trades != [];
    TradesFill(prod, book, aggr);
    MatchTradesAllItCan(prod, book, aggr);
    TradesNeverUnfilled(None, m.trades);
    ToldAtTheEnd(m.book, m.aggr, traded);
    ToldInEither(Render(None, m.trades), Finish(m.book, m.aggr, traded).events);
    hide ToldUnfilled, Finish;
  }

  /** Where everything that rests has something left, there is something to take unless nothing is eligible. */
  lemma EligibleHasQty(prod: bool, book: seq<Order>, aggr: Order)
    requires Positive(book)
    ensures EligibleQty(prod, book, aggr) == 0 <==> forall q :: 0 <= q < |book| ==> !Eligible(prod, aggr, book[q])
  {
    if book != [] {
      EligibleHasQty(prod, book[1..], aggr);
      assert forall q :: 0 < q < |book| ==> book[q] == book[1..][q - 1];
      hide Eligible;
    }
  }

  // There: exactly if orders on the other side exist, but all of them are of its own session, and
  // self-trades are prevented.
  lemma UnfilledIffOnlyOwnOrders(prod: bool, book: seq<Order>, aggr: Order)
    requires Positive(book) && aggr.qtyRemaining == aggr.qty && 0 < aggr.qty
    ensures ToldUnfilled(Submit(prod, book, aggr).events) <==>
      && aggr.priceType.MARKET? && prod && !NoOpposite(book, aggr)
      && forall q :: 0 <= q < |book| && book[q].side != aggr.side ==> book[q].sessionId == aggr.sessionId
  {
    UnfilledIff(prod, book, aggr);
    EligibleHasQty(prod, book, aggr);
    hide Submit, EligibleQty, Positive, ToldUnfilled;
  }

  /** So it is in every run in which every order for nothing missed: then all that rests has something left. */
  lemma UnfilledInRuns(prod: bool, rs: seq<Request>, aggr: Order)
    requires Lawful(prod, rs) && EmptyOrdersMiss(prod, rs) && aggr.qtyRemaining == aggr.qty && 0 < aggr.qty
    ensures
      var book := Run(prod, rs).book;
      ToldUnfilled(Submit(prod, book, aggr).events) <==>
        && aggr.priceType.MARKET? && prod && !NoOpposite(book, aggr)
        && forall q :: 0 <= q < |book| && book[q].side != aggr.side ==> book[q].sessionId == aggr.sessionId
  {
    hide Lawful, EmptyOrdersMiss, Run, Submit, ToldUnfilled, NoOpposite;
    HistoriesAreLegal(prod, rs);
    LegalNow(prod, rs);
    LiveIsPositive(Run(prod, rs).book, Run(prod, rs).log);
    UnfilledIffOnlyOwnOrders(prod, Run(prod, rs).book, aggr);
  }

  lemma LiveIsPositive(book: seq<Order>, log: seq<FillEvent>)
    requires Statuses(book, log)
    ensures Positive(book)
  {
  }

  const EMPTY_ASK := Order(1, 1, SELL, LIMIT, 1.0, 0, 0, Accepted)
  const BUY_FIVE := Order(2, 2, BUY, MARKET, 0.0, 5, 5, Accepted)

  lemma RestsAlone(o: Order)
    requires o.priceType.LIMIT?
    ensures Submit(false, [], o).book == [o]
  {
    hide Best, Resume;
    assert Best(false, [], o).None? by {
      NothingInEmptyBook(o);
    }
    ResumeEnd(false, [], o, None, false);
    assert [] + [o] == [o];
  }

  lemma NothingInEmptyBook(o: Order)
    ensures Best(false, [], o).None?
  {
  }

  lemma FirstPlaced(o: Order)
    requires o.qtyRemaining == o.qty && o.status == Accepted
    ensures Lawful(false, [Place(o)]) && Run(false, [Place(o)]).book == Submit(false, [], o).book
  {
    hide Submit;
    var rs := [Place(o)];
    assert rs[..0] == [];
  }

  // But a limit order for nothing may rest, and then another session's market order is told it is Unfilled, although
  // self-trades are allowed and it has met an order that it may trade with.
  lemma EmptyAskLeavesUnfilled()
    ensures Lawful(false, [Place(EMPTY_ASK)]) && Run(false, [Place(EMPTY_ASK)]).book == [EMPTY_ASK]
    ensures Eligible(false, BUY_FIVE, EMPTY_ASK) && ToldUnfilled(Submit(false, [EMPTY_ASK], BUY_FIVE).events)
  {
    hide Lawful, Run, Submit, ToldUnfilled;
    FirstPlaced(EMPTY_ASK);
    RestsAlone(EMPTY_ASK);
    assert [EMPTY_ASK][0].side != BUY_FIVE.side;
    UnfilledIff(false, [EMPTY_ASK], BUY_FIVE);
  }

  // ----- Clearing

  function DoneEvent(o: Order): FillEvent {
    FillEvent(0.0, 0, Snapshot(o.(status := Done)), true)
  }

  lemma LevelEventsOfOne(o: Order, rest: seq<Order>, side: SideType, i: int)
    ensures multiset(DoneEvents(LevelOrders([o] + rest, side, i))) ==
      multiset(DoneEvents(LevelOrders(rest, side, i))) +
      if o.side == side && Level(o) == i then multiset{DoneEvent(o)} else multiset{}
  {
    assert ([o] + rest)[1..] == rest;
    hide Level;
    var level := LevelOrders(rest, side, i);
    if o.side == side && Level(o) == i {
      assert LevelOrders([o] + rest, side, i) == [o] + level;
      assert ([o] + level)[1..] == level;
      assert DoneEvents([o] + level) == [DoneEvent(o)] + DoneEvents(level);
    } else {
      assert LevelOrders([o] + rest, side, i) == level;
    }
  }

  lemma {:induction false} ClearedEventsOfOne(o: Order, rest: seq<Order>, side: SideType, n: nat)
    ensures multiset(ClearedEvents([o] + rest, side, n)) ==
      multiset(ClearedEvents(rest, side, n)) + if o.side == side && 0 <= Level(o) < n then multiset{DoneEvent(o)}
        else multiset{}
  {
    hide DoneEvents, LevelOrders, Level, DoneEvent;
    if n != 0 {
      ClearedEventsOfOne(o, rest, side, n - 1);
      LevelEventsOfOne(o, rest, side, n - 1);
      var a, b := ClearedEvents(rest, side, n - 1), DoneEvents(LevelOrders(rest, side, n - 1));
      var a', b' := ClearedEvents([o] + rest, side, n - 1), DoneEvents(LevelOrders([o] + rest, side, n - 1));
      assert ClearedEvents(rest, side, n) == a + b && ClearedEvents([o] + rest, side, n) == a' + b';
      hide ClearedEvents, Snapshot;
      assert multiset(a + b) == multiset(a) + multiset(b) && multiset(a' + b') == multiset(a') + multiset(b');
    }
  }

  // Clearing sends exactly one Done for every order of the book.
  lemma {:induction false} ClearedOnce(book: seq<Order>, n: nat)
    requires forall i :: 0 <= i < |book| ==> 0 <= Level(book[i]) < n
    ensures multiset(ClearedEvents(book, BUY, n) + ClearedEvents(book, SELL, n)) == multiset(DoneEvents(book))
  {
    if book == [] {
      ClearedEventsOfNone(BUY, n);
      ClearedEventsOfNone(SELL, n);
    } else {
      var o, rest := book[0], book[1..];
      assert book == [o] + rest;
      ClearedOnce(rest, n);
      ClearedEventsOfOne(o, rest, BUY, n);
      ClearedEventsOfOne(o, rest, SELL, n);
      assert DoneEvents(book) == [DoneEvent(o)] + DoneEvents(rest);
    }
  }

  /** In the book these are orders of one side, and the first has a lower price, or the same and came before. */
  ghost predicate GoesFirst(book: seq<Order>, side: SideType, id: OrderId, id': OrderId) {
    exists p, q :: 0 <= p < |book| && 0 <= q < |book| && book[p].side == book[q].side == side
      && book[p].orderId == id && book[q].orderId == id'
      && (PriceToIndex(book[p].price) < PriceToIndex(book[q].price)
          || (PriceToIndex(book[p].price) == PriceToIndex(book[q].price) && p < q))
  }

  /** Where the j-th order of a level is in the book. */
  function PositionIn(book: seq<Order>, side: SideType, i: int, j: nat): (p: nat)
    requires j < |LevelOrders(book, side, i)|
    ensures p < |book| && book[p] == LevelOrders(book, side, i)[j] && book[p].side == side && Level(book[p]) == i
    decreases |book|
  {
    if book[0].side == side && Level(book[0]) == i
    then if j == 0 then 0 else PositionIn(book[1..], side, i, j - 1) + 1
    else PositionIn(book[1..], side, i, j) + 1
  }

  lemma {:induction false} PositionsGrow(book: seq<Order>, side: SideType, i: int, j: nat, k: nat)
    requires j < k < |LevelOrders(book, side, i)|
    ensures PositionIn(book, side, i, j) < PositionIn(book, side, i, k)
    decreases |book|
  {
    if book[0].side != side || Level(book[0]) != i {
      PositionsGrow(book[1..], side, i, j, k);
    } else if j > 0 {
      PositionsGrow(book[1..], side, i, j - 1, k - 1);
    }
  }

  /** An event of the first n levels is the Done of an order there. */
  lemma {:induction false} ClearedIsOfLevel(book: seq<Order>, side: SideType, n: nat, j: nat) returns (p: nat)
    requires j < |ClearedEvents(book, side, n)|
    ensures p < |book| && book[p].side == side && Level(book[p]) < n
    ensures ClearedEvents(book, side, n)[j].snapshot.orderId == book[p].orderId
  {
    var before := ClearedEvents(book, side, n - 1);
    if j < |before| {
      p := ClearedIsOfLevel(book, side, n - 1, j);
    } else {
      p := PositionIn(book, side, n - 1, j - |before|);
    }
  }

  lemma PositionsDecide(book: seq<Order>, side: SideType, p: nat, q: nat)
    requires p < |book| && q < |book| && book[p].side == book[q].side == side
    requires Level(book[p]) < Level(book[q]) || (Level(book[p]) == Level(book[q]) && p < q)
    ensures GoesFirst(book, side, book[p].orderId, book[q].orderId)
  {
  }

  lemma ClearedLast(book: seq<Order>, side: SideType, n: nat)
    requires n > 0
    ensures
      var events, before, level := ClearedEvents(book, side, n), ClearedEvents(book, side, n - 1),
        LevelOrders(book, side, n - 1);
      && before <= events && |events| == |before| + |level|
      && forall k :: |before| <= k < |events| ==> events[k].snapshot.orderId == level[k - |before|].orderId
  {
    hide LevelOrders, DoneEvents, Level;
    var events, before, level := ClearedEvents(book, side, n), ClearedEvents(book, side, n - 1),
      LevelOrders(book, side, n - 1);
    assert events == before + DoneEvents(level);
    hide ClearedEvents;
    forall k | |before| <= k < |events|
      ensures events[k].snapshot.orderId == level[k - |before|].orderId
    {
      assert events[k] == DoneEvents(level)[k - |before|];
    }
  }

  lemma NotEmptyBelow(book: seq<Order>, side: SideType, n: nat)
    ensures ClearedEvents(book, side, n) != [] ==> n > 0
  {
  }

  /** A side is cleared from its lowest price up, and at each price in the order of arrival. */
  lemma {:induction false} ClearedInOrder(book: seq<Order>, side: SideType, n: nat, j: nat, k: nat)
    requires j < k < |ClearedEvents(book, side, n)|
    ensures
      var events := ClearedEvents(book, side, n);
      GoesFirst(book, side, events[j].snapshot.orderId, events[k].snapshot.orderId)
  {
    hide ClearedEvents, LevelOrders, DoneEvents, PositionIn, Level, GoesFirst;
    NotEmptyBelow(book, side, n);
    ClearedLast(book, side, n);
    var before := ClearedEvents(book, side, n - 1);
    if k < |before| {
      ClearedInOrder(book, side, n - 1, j, k);
    } else {
      var p, q := 0, PositionIn(book, side, n - 1, k - |before|);
      if j < |before| {
        p := ClearedIsOfLevel(book, side, n - 1, j);
      } else {
        PositionsGrow(book, side, n - 1, j - |before|, k - |before|);
        p := PositionIn(book, side, n - 1, j - |before|);
      }
      PositionsDecide(book, side, p, q);
    }
  }

  lemma ClearedEventsOfNone(side: SideType, n: nat)
    ensures ClearedEvents([], side, n) == []
  {
  }

  lemma OnceAtMost<T>(s: seq<T>, i: nat, j: nat)
    requires i < j < |s|
    ensures s[i] == s[j] ==> multiset(s)[s[i]] >= 2
  {
    assert s == s[..j] + ([s[j]] + s[j + 1..]);
    assert s[..j][i] == s[i];
  }

  lemma OnceIsOne<T>(s: seq<T>, i: nat)
    requires i < |s| && forall j :: 0 <= j < |s| && j != i ==> s[j] != s[i]
    ensures multiset(s)[s[i]] == 1
  {
    assert s == s[..i] + ([s[i]] + s[i + 1..]);
    assert s[i] !in s[..i] && s[i] !in s[i + 1..];
  }

  /** An event among those that are one Done for each order of the book is the Done of one of them. */
  lemma DoneOfOrder(book: seq<Order>, events: seq<FillEvent>, i: nat) returns (p: nat)
    requires multiset(events) == multiset(DoneEvents(book)) && i < |events|
    ensures p < |book| && events[i] == DoneEvent(book[p])
  {
    var dones := DoneEvents(book);
    assert events[i] in multiset(events);
    assert events[i] in dones;
    p :| 0 <= p < |dones| && dones[p] == events[i];
  }

  /** And no two of them are of one order. */
  lemma DoneOnceEach(book: seq<Order>, events: seq<FillEvent>, i: nat, j: nat)
    requires UniqueIds(book) && multiset(events) == multiset(DoneEvents(book)) && i < j < |events|
    ensures events[j].snapshot.orderId != events[i].snapshot.orderId
  {
    var dones := DoneEvents(book);
    var p := DoneOfOrder(book, events, i);
    var q := DoneOfOrder(book, events, j);
    OnceIsOne(dones, p);
    OnceAtMost(events, i, j);
  }

  lemma DoneIsAnnounced(book: seq<Order>, p: nat)
    requires p < |book|
    ensures DoneEvent(book[p]) in multiset(DoneEvents(book))
  {
    assert DoneEvents(book)[p] == DoneEvent(book[p]);
  }

  /** The first n of those events leave the other orders' last statuses alone. */
  lemma {:induction false} DonesAreLast(book: seq<Order>, log: seq<FillEvent>, events: seq<FillEvent>, n: nat)
    requires UniqueIds(book) && multiset(events) == multiset(DoneEvents(book)) && n <= |events|
    ensures forall i :: 0 <= i < n ==> LastStatus(log + events[..n], events[i].snapshot.orderId) == Done
    ensures forall i :: n <= i < |events| ==>
      LastStatus(log + events[..n], events[i].snapshot.orderId) == LastStatus(log, events[i].snapshot.orderId)
  {
    if n == 0 {
      assert log + events[..0] == log;
    } else {
      var e, before := events[n - 1], log + events[..n - 1];
      assert log + events[..n] == before + [e];
      DonesAreLast(book, log, events, n - 1);
      var p := DoneOfOrder(book, events, n - 1);
      hide LastStatus, DoneEvents, UniqueIds;
      Announced(before, e, e.snapshot.orderId);
      forall i | 0 <= i < |events| && i != n - 1
        ensures LastStatus(log + events[..n], events[i].snapshot.orderId) ==
          LastStatus(before, events[i].snapshot.orderId)
      {
        DoneOnceEach(book, events, if i < n - 1 then i else n - 1, if i < n - 1 then n - 1 else i);
        Announced(before, e, events[i].snapshot.orderId);
      }
    }
  }

  lemma {:induction false} DonesStayLegal(book: seq<Order>, log: seq<FillEvent>, events: seq<FillEvent>, n: nat)
    requires Statuses(book, log) && multiset(events) == multiset(DoneEvents(book)) && n <= |events|
    ensures Legal(log + events[..n])
  {
    if n == 0 {
      assert log + events[..0] == log;
    } else {
      var e, before := events[n - 1], log + events[..n - 1];
      assert log + events[..n] == before + [e];
      DonesStayLegal(book, log, events, n - 1);
      DoneIsLegal(book, log, events, n - 1);
      hide Legal, LastStatus, Statuses, DoneEvents, UniqueIds;
      DonesAreLast(book, log, events, n - 1);
      Announced(before, e, e.snapshot.orderId);
    }
  }

  lemma DoneIsLegal(book: seq<Order>, log: seq<FillEvent>, events: seq<FillEvent>, i: nat)
    requires Statuses(book, log) && multiset(events) == multiset(DoneEvents(book)) && i < |events|
    ensures UniqueIds(book) && events[i].snapshot.status == Done && events[i].statusChanged
    ensures LegalStep(LastStatus(log, events[i].snapshot.orderId), Done)
  {
    var p := DoneOfOrder(book, events, i);
    assert Live(book[p]) && LastStatus(log, book[p].orderId) == book[p].status;
  }

  lemma DonesEndHistories(book: seq<Order>, log: seq<FillEvent>, events: seq<FillEvent>)
    requires UniqueIds(book) && multiset(events) == multiset(DoneEvents(book))
    ensures forall p :: 0 <= p < |book| ==> LastStatus(log + events, book[p].orderId) == Done
    ensures Statuses(book, log) ==> Legal(log + events)
  {
    hide Legal, LastStatus, Statuses, UniqueIds;
    assert events[..|events|] == events;
    DonesAreLast(book, log, events, |events|);
    if Statuses(book, log) {
      DonesStayLegal(book, log, events, |events|);
    }
    forall p | 0 <= p < |book|
      ensures LastStatus(log + events, book[p].orderId) == Done
    {
      DoneIsAnnounced(book, p);
      assert DoneEvent(book[p]) in events;
      var i :| 0 <= i < |events| && events[i] == DoneEvent(book[p]);
    }
  }

  /**
   * Clearing ends every history: each resting order's last word is Done.  And the run is legal throughout, the clear
   * included, if and only if every order for nothing missed.
   */
  lemma ClearingEndsHistories(prod: bool, rs: seq<Request>, n: nat)
    requires Lawful(prod, rs)
    requires var book := Run(prod, rs).book; forall i :: 0 <= i < |book| ==> 0 <= Level(book[i]) < n
    ensures
      var s := Run(prod, rs);
      var log := s.log + (ClearedEvents(s.book, BUY, n) + ClearedEvents(s.book, SELL, n));
      && (forall i :: 0 <= i < |s.book| ==> LastStatus(log, s.book[i].orderId) == Done)
      && (LegalRun(prod, rs) && Legal(log) <==> EmptyOrdersMiss(prod, rs))
  {
    hide Legal, LastStatus, Statuses, Lawful, Run, ClearedEvents, Level, EmptyOrdersMiss, LegalRun, UniqueIds;
    var s := Run(prod, rs);
    var events := ClearedEvents(s.book, BUY, n) + ClearedEvents(s.book, SELL, n);
    BookIsUnique(prod, rs);
    HistoriesAreLegal(prod, rs);
    ClearedOnce(s.book, n);
    DonesEndHistories(s.book, s.log, events);
    if LegalRun(prod, rs) {
      LegalNow(prod, rs);
    }
  }

  lemma BookIsUnique(prod: bool, rs: seq<Request>)
    requires Lawful(prod, rs)
    ensures UniqueIds(Run(prod, rs).book)
  {
    hide Lawful, Run, UniqueIds;
    QuantityIsConserved(prod, rs);
  }

  lemma LegalNow(prod: bool, rs: seq<Request>)
    requires LegalRun(prod, rs)
    ensures Statuses(Run(prod, rs).book, Run(prod, rs).log)
  {
    hide Statuses, Run;
  }
}
