/**
 * When the status flags of an incoming order's own events are exact.  The flag of a partial fill is always
 * set, so a second partial fill, at another price, is flagged although the status is the same.
 */
module FlagLaws {
  import opened Options
  import opened TradingTypes
  import opened Ticks
  import opened PriceTime
  import opened PriceTimeLaws
  import opened EngineRuns
  import opened EngineStatus

  // ----- Own events

  ghost predicate OwnExact(log: seq<FillEvent>, events: seq<FillEvent>, id: OrderId) {
    forall k :: 0 <= k < |events| && events[k].snapshot.orderId == id ==> Exact(log + events[..k], events[k])
  }

  lemma OwnExactConcat(log: seq<FillEvent>, a: seq<FillEvent>, b: seq<FillEvent>, id: OrderId)
    ensures OwnExact(log, a + b, id) <==> OwnExact(log, a, id) && OwnExact(log + a, b, id)
  {
    hide Exact;
    var all := a + b;
    assert forall k :: 0 <= k < |a| ==> all[..k] == a[..k] && all[k] == a[k];
    forall k | 0 <= k < |b|
      ensures log + all[..|a| + k] == (log + a) + b[..k] && all[|a| + k] == b[k]
    {
      assert all[..|a| + k] == a + b[..k];
    }
    if OwnExact(log, all, id) {
      forall k | 0 <= k < |b| && b[k].snapshot.orderId == id
        ensures Exact((log + a) + b[..k], b[k])
      {
        assert all[|a| + k].snapshot.orderId == id;
      }
    }
    if OwnExact(log, a, id) && OwnExact(log + a, b, id) {
      forall k | 0 <= k < |all| && all[k].snapshot.orderId == id
        ensures Exact(log + all[..k], all[k])
      {
        if k >= |a| {
          assert all[|a| + (k - |a|)] == b[k - |a|];
        }
      }
    }
  }

  lemma OwnExactOne(log: seq<FillEvent>, e: FillEvent, id: OrderId)
    ensures OwnExact(log, [e], id) <==> e.snapshot.orderId != id || Exact(log, e)
  {
    assert log + [e][..0] == log;
  }

  // ----- What lies ahead of an incoming order

  /** Will the order trade at this level, or has it just done so? */
  ghost predicate Fills(prod: bool, book: seq<Order>, aggr: Order, pending: Option<Pending>, level: int) {
    || (pending.Some? && pending.value.level == level)
    || exists x :: 0 <= x < |book| && Eligible(prod, aggr, book[x]) && Level(book[x]) == level
  }

  /** Will it have something left when all there is up to this level is gone? */
  predicate Outlives(prod: bool, book: seq<Order>, aggr: Order, level: int) {
    aggr.qtyRemaining > QtyAt(prod, book, aggr, level, false)
  }

  /** Then it is told of a partial fill at this level. */
  ghost predicate Partial(prod: bool, book: seq<Order>, aggr: Order, pending: Option<Pending>, level: int) {
    Fills(prod, book, aggr, pending, level) && Outlives(prod, book, aggr, level)
  }

  /** A second partial fill is to come, counting the one that was announced last. */
  ghost predicate Repeats(prod: bool, book: seq<Order>, aggr: Order, pending: Option<Pending>, last: OrderStatus) {
    || (exists l, m :: l != m && Partial(prod, book, aggr, pending, l) && Partial(prod, book, aggr, pending, m))
    || (last == PartiallyFilled && exists l :: Partial(prod, book, aggr, pending, l))
  }

  /** No order left is at a better level than the fills not announced yet. */
  ghost predicate Leading(prod: bool, book: seq<Order>, aggr: Order, pending: Option<Pending>) {
    pending.Some? ==> forall x :: 0 <= x < |book| && Eligible(prod, aggr, book[x]) ==>
      !Better(aggr.side, Level(book[x]), pending.value.level)
  }

  lemma {:induction false} NothingUpTo(prod: bool, part: seq<Order>, aggr: Order, level: int)
    requires forall x :: 0 <= x < |part| && Eligible(prod, aggr, part[x]) ==>
      !Better(aggr.side, Level(part[x]), level) && Level(part[x]) != level
    ensures QtyAt(prod, part, aggr, level, false) == 0
  {
    if part != [] {
      NothingUpTo(prod, part[..|part| - 1], aggr, level);
    }
  }

  // Nothing is left to trade with: only the pending fill can be partial.
  lemma RepeatsAtEnd(prod: bool, book: seq<Order>, aggr: Order, pending: Option<Pending>, last: OrderStatus)
    requires forall x :: 0 <= x < |book| ==> !Eligible(prod, aggr, book[x])
    requires aggr.qtyRemaining > 0
    ensures Repeats(prod, book, aggr, pending, last) <==> pending.Some? && last == PartiallyFilled
  {
    hide Eligible;
    if pending.Some? {
      NothingUpTo(prod, book, aggr, pending.value.level);
      assert Partial(prod, book, aggr, pending, pending.value.level);
    }
  }

  // Announcing the pending fill before trading at another level makes one of the partial fills the last one announced.
  lemma RepeatsAfterFlush(prod: bool, book: seq<Order>, aggr: Order, pending: Pending, last: OrderStatus, p: nat)
    requires p < |book| && IsBest(prod, book, aggr, p) && Leading(prod, book, aggr, Some(pending))
    requires pending.level != Level(book[p]) && aggr.qtyRemaining > 0
    ensures Repeats(prod, book, aggr, Some(pending), last) <==>
      last == PartiallyFilled || Repeats(prod, book, aggr, None, PartiallyFilled)
  {
    var level := pending.level;
    forall x | 0 <= x < |book| && Eligible(prod, aggr, book[x])
      ensures !Better(aggr.side, Level(book[x]), level) && Level(book[x]) != level
    {
      assert Ahead(aggr.side, book, p, x);
    }
    NothingUpTo(prod, book, aggr, level);
    hide Eligible, QtyAt, IsBest, Leading;
    assert Partial(prod, book, aggr, Some(pending), level);
    forall l
      ensures Partial(prod, book, aggr, Some(pending), l) <==> l == level || Partial(prod, book, aggr, None, l)
      ensures !Partial(prod, book, aggr, None, level)
    {
    }
    hide Partial;
  }

  // Levels at which the order will trade are not better than the best, so the best order counts up to each of them.
  lemma BestCounts(prod: bool, book: seq<Order>, aggr: Order, pending: Option<Pending>, p: nat, level: int)
    requires p < |book| && IsBest(prod, book, aggr, p)
    requires pending.Some? ==> pending.value.level == Level(book[p])
    requires Fills(prod, book, aggr, pending, level)
    ensures QtyAt(prod, book, aggr, level, false) ==
      book[p].qtyRemaining + QtyAt(prod, book[..p] + book[p + 1..], aggr, level, false)
  {
    if level != Level(book[p]) {
      var x :| 0 <= x < |book| && Eligible(prod, aggr, book[x]) && Level(book[x]) == level;
      assert Ahead(aggr.side, book, p, x);
    }
    assert QtyAt(prod, [book[p]], aggr, level, false) == book[p].qtyRemaining;
    QtyAtSplit(prod, book, p, aggr, level, false);
  }

  // An order that the best order can fill is never told of a partial fill.
  lemma NoRepeatsAtLast(prod: bool, book: seq<Order>, aggr: Order, pending: Option<Pending>, last: OrderStatus, p: nat)
    requires p < |book| && IsBest(prod, book, aggr, p) && aggr.qtyRemaining <= book[p].qtyRemaining
    requires pending.Some? ==> pending.value.level == Level(book[p])
    ensures !Repeats(prod, book, aggr, pending, last)
  {
    forall level | Fills(prod, book, aggr, pending, level)
      ensures !Partial(prod, book, aggr, pending, level)
    {
      BestCounts(prod, book, aggr, pending, p, level);
    }
  }

  lemma PartialAfterFill(prod: bool, book: seq<Order>, aggr: Order, pending: Option<Pending>, p: nat,
                         pending': Pending, level: int)
    requires p < |book| && IsBest(prod, book, aggr, p) && book[p].qtyRemaining < aggr.qtyRemaining
    requires pending.Some? ==> pending.value.level == Level(book[p])
    requires pending'.level == Level(book[p])
    ensures
      var aggr' := Fill(aggr, book[p].qtyRemaining);
      Partial(prod, book, aggr, pending, level) <==>
      Partial(prod, book[..p] + book[p + 1..], aggr', Some(pending'), level)
  {
    var book', aggr' := book[..p] + book[p + 1..], Fill(aggr, book[p].qtyRemaining);
    FillsAfterFill(prod, book, aggr, pending, p, pending', level);
    if Fills(prod, book, aggr, pending, level) {
      BestCounts(prod, book, aggr, pending, p, level);
      QtyAtOfRest(prod, book', aggr, aggr', level, false);
    }
  }

  lemma FillsAfterFill(prod: bool, book: seq<Order>, aggr: Order, pending: Option<Pending>, p: nat,
                       pending': Pending, level: int)
    requires p < |book| && IsBest(prod, book, aggr, p) && book[p].qtyRemaining < aggr.qtyRemaining
    requires pending.Some? ==> pending.value.level == Level(book[p])
    requires pending'.level == Level(book[p])
    ensures
      Fills(prod, book, aggr, pending, level) <==>
      Fills(prod, book[..p] + book[p + 1..], Fill(aggr, book[p].qtyRemaining), Some(pending'), level)
  {
    var book', aggr' := book[..p] + book[p + 1..], Fill(aggr, book[p].qtyRemaining);
    forall x | 0 <= x < |book| && x != p
      ensures book'[if x < p then x else x - 1] == book[x]
      ensures Eligible(prod, aggr, book[x]) == Eligible(prod, aggr', book[x])
    {
    }
    if x :| 0 <= x < |book| && Eligible(prod, aggr, book[x]) && Level(book[x]) == level && x != p {
      assert Eligible(prod, aggr', book'[if x < p then x else x - 1]);
    }
    if x' :| 0 <= x' < |book'| && Eligible(prod, aggr', book'[x']) && Level(book'[x']) == level {
      assert book'[x'] == book[if x' < p then x' else x' + 1];
    }
  }

  // Filling the best order leaves what lies ahead as it was.
  lemma RepeatsAfterFill(prod: bool, book: seq<Order>, aggr: Order, pending: Option<Pending>, last: OrderStatus,
                         p: nat, pending': Pending)
    requires p < |book| && IsBest(prod, book, aggr, p) && book[p].qtyRemaining < aggr.qtyRemaining
    requires pending.Some? ==> pending.value.level == Level(book[p])
    requires pending'.level == Level(book[p])
    ensures
      var book', aggr' := book[..p] + book[p + 1..], Fill(aggr, book[p].qtyRemaining);
      && (Repeats(prod, book, aggr, pending, last) <==> Repeats(prod, book', aggr', Some(pending'), last))
      && Leading(prod, book', aggr', Some(pending'))
  {
    var book', aggr' := book[..p] + book[p + 1..], Fill(aggr, book[p].qtyRemaining);
    forall x | 0 <= x < |book'| && Eligible(prod, aggr', book'[x])
      ensures !Better(aggr.side, Level(book'[x]), pending'.level)
    {
      var y := if x < p then x else x + 1;
      assert book'[x] == book[y] && Eligible(prod, aggr, book[y]);
      assert Ahead(aggr.side, book, p, y);
    }
    hide Partial, IsBest, Eligible;
    forall level
      ensures Partial(prod, book, aggr, pending, level) <==> Partial(prod, book', aggr', Some(pending'), level)
    {
      PartialAfterFill(prod, book, aggr, pending, p, pending', level);
    }
  }

  // ----- The flags of one match

  // Announcing a partial fill: exact unless a partial fill was announced last.
  lemma FlushIsExactIff(book: seq<Order>, log: seq<FillEvent>, aggr: Order, pending: Pending)
    requires MidStatuses(book, log, aggr, Some(pending))
    ensures OwnExact(log, Flush(Some(pending)), aggr.orderId) <==> LastStatus(log, aggr.orderId) != PartiallyFilled
    ensures LastStatus(log + Flush(Some(pending)), aggr.orderId) == PartiallyFilled
  {
    var e := Flush(Some(pending))[0];
    assert Flush(Some(pending)) == [e];
    OwnExactOne(log, e, aggr.orderId);
    Announced(log, e, aggr.orderId);
  }

  // The news of one trade: a flush if the level changes, and the resting order's event.
  lemma NewsAreExactIff(book: seq<Order>, log: seq<FillEvent>, aggr: Order, pending: Option<Pending>, p: nat)
    requires MidStatuses(book, log, aggr, pending) && p < |book|
    ensures
      var q := TradeQty(book, aggr, p);
      var t := Trade(book[p], q, Fill(aggr, q));
      var news := FlushBefore(pending, t) + [RestingEvent(t)];
      var flushed := pending.Some? && pending.value.level != Level(book[p]);
      var last := LastStatus(log, aggr.orderId);
      && (OwnExact(log, news, aggr.orderId) <==> !(flushed && last == PartiallyFilled))
      && LastStatus(log + news, aggr.orderId) == (if flushed then PartiallyFilled else last)
  {
    var q := TradeQty(book, aggr, p);
    var t := Trade(book[p], q, Fill(aggr, q));
    var before, e, id := FlushBefore(pending, t), RestingEvent(t), aggr.orderId;
    Apart(book, aggr);
    if pending.Some? && pending.value.level != Level(book[p]) {
      FlushIsExactIff(book, log, aggr, pending.value);
    } else {
      assert before == [] && log + before == log;
    }
    OwnExactConcat(log, before, [e], id);
    OwnExactOne(log + before, e, id);
    Announced(log + before, e, id);
    assert log + (before + [e]) == (log + before) + [e];
  }

  lemma LastFlushIsExact(book: seq<Order>, log: seq<FillEvent>, aggr: Order, pending: Pending)
    requires JustFilled(book, log, aggr, pending)
    ensures OwnExact(log, Flush(Some(pending)), aggr.orderId)
  {
    OwnExactOne(log, Flush(Some(pending))[0], aggr.orderId);
  }

  lemma EndIsExactIff(prod: bool, book: seq<Order>, log: seq<FillEvent>, aggr: Order, pending: Option<Pending>,
                      traded: bool)
    requires MidStatuses(book, log, aggr, pending)
    requires forall x :: 0 <= x < |book| ==> !Eligible(prod, aggr, book[x])
    ensures OwnExact(log, Resume(prod, book, aggr, pending, traded).events, aggr.orderId) <==>
      !Repeats(prod, book, aggr, pending, LastStatus(log, aggr.orderId))
  {
    var id, flush, last := aggr.orderId, Flush(pending), Finish(book, aggr, traded).events;
    ResumeEnd(prod, book, aggr, pending, traded);
    RepeatsAtEnd(prod, book, aggr, pending, LastStatus(log, id));
    hide Repeats, Eligible, Resume;
    OwnExactConcat(log, flush, last, id);
    if pending.Some? {
      FlushIsExactIff(book, log, aggr, pending.value);
      assert last == [];
    } else {
      assert log + flush == log;
      if last != [] {
        OwnExactOne(log, last[0], id);
        assert last == [last[0]];
      }
    }
  }

  /** From any point of a match: the own events to come are flagged exactly if and only if no partial fill repeats. */
  lemma {:induction false} ResumeIsExactIff(prod: bool, book: seq<Order>, log: seq<FillEvent>, aggr: Order,
                                            pending: Option<Pending>, traded: bool)
    requires MidStatuses(book, log, aggr, pending) && Leading(prod, book, aggr, pending)
    ensures OwnExact(log, Resume(prod, book, aggr, pending, traded).events, aggr.orderId) <==>
      !Repeats(prod, book, aggr, pending, LastStatus(log, aggr.orderId))
    decreases |book|
  {
    var best := Best(prod, book, aggr);
    if best.None? {
      EndIsExactIff(prod, book, log, aggr, pending, traded);
    } else {
      var p, id := best.value, aggr.orderId;
      var q := TradeQty(book, aggr, p);
      var t := Trade(book[p], q, Fill(aggr, q));
      var news, ext := FlushBefore(pending, t) + [RestingEvent(t)], Extend(pending, t);
      var flushed := pending.Some? && pending.value.level != Level(book[p]);
      var pending1, last := if flushed then None else pending, LastStatus(log, id);
      var last1 := if flushed then PartiallyFilled else last;
      assert Live(aggr) && (pending.Some? ==> pending.value.aggr == aggr);
      assert q < aggr.qtyRemaining ==> AfterTrade(book, p, q) == book[..p] + book[p + 1..];
      hide Repeats, Leading, MidStatuses, JustFilled, OwnExact, Resume, IsBest, AfterTrade, RestingEvent;
      ResumeTrade(prod, book, aggr, pending, traded, p);
      NewsAreExactIff(book, log, aggr, pending, p);
      TradeStaysLegal(book, log, aggr, pending, p);
      if flushed {
        RepeatsAfterFlush(prod, book, aggr, pending.value, last, p);
      }
      if t.aggr.qtyRemaining == 0 {
        NoRepeatsAtLast(prod, book, aggr, pending1, last1, p);
        LastFlushIsExact(AfterTrade(book, p, q), log + news, t.aggr, ext);
        OwnExactConcat(log, news, Flush(Some(ext)), id);
      } else {
        RepeatsAfterFill(prod, book, aggr, pending1, last1, p, ext);
        ResumeIsExactIff(prod, AfterTrade(book, p, q), log + news, t.aggr, Some(ext), true);
        OwnExactConcat(log, news, Resume(prod, AfterTrade(book, p, q), t.aggr, Some(ext), true).events, id);
      }
    }
  }

  // ----- A whole submission

  /** The order empties a level that is not the best one, and has something left. */
  ghost predicate EmptiesTwoLevels(prod: bool, book: seq<Order>, o: Order) {
    exists x, y ::
      && 0 <= x < |book| && 0 <= y < |book| && Eligible(prod, o, book[x]) && Eligible(prod, o, book[y])
      && Better(o.side, Level(book[y]), Level(book[x]))
      && o.qtyRemaining > QtyAt(prod, book, o, Level(book[x]), false)
  }

  lemma RepeatsFromStart(prod: bool, book: seq<Order>, o: Order)
    ensures Repeats(prod, book, o, None, Accepted) <==> EmptiesTwoLevels(prod, book, o)
  {
    hide QtyAt, Eligible;
    if EmptiesTwoLevels(prod, book, o) {
      var x, y :|
        && 0 <= x < |book| && 0 <= y < |book| && Eligible(prod, o, book[x]) && Eligible(prod, o, book[y])
        && Better(o.side, Level(book[y]), Level(book[x]))
        && o.qtyRemaining > QtyAt(prod, book, o, Level(book[x]), false);
      QtyAtWidens(prod, book, o, Level(book[y]), false, Level(book[x]), false);
      assert Partial(prod, book, o, None, Level(book[x])) && Partial(prod, book, o, None, Level(book[y]));
    }
    if Repeats(prod, book, o, None, Accepted) {
      var l, m :| l != m && Partial(prod, book, o, None, l) && Partial(prod, book, o, None, m);
      var x :| 0 <= x < |book| && Eligible(prod, o, book[x]) && Level(book[x]) == l;
      var y :| 0 <= y < |book| && Eligible(prod, o, book[y]) && Level(book[y]) == m;
      assert Better(o.side, m, l) || Better(o.side, l, m);
    }
  }

  /** An order for nothing that meets another is announced Filled, without a flag. */
  lemma EmptyFlagIsExactIff(prod: bool, book: seq<Order>, log: seq<FillEvent>, o: Order)
    requires Statuses(book, log) && New(o, book, log) && o.qty == 0
    ensures OwnExact(log, Submit(prod, book, o).events, o.orderId) <==> Best(prod, book, o).None?
  {
    var best, events := Best(prod, book, o), Submit(prod, book, o).events;
    assert best.Some? ==> best.value < |book|;
    hide Statuses, Submit, Level, IndexToPrice, Best, IsBest, Legal;
    if best.Some? {
      var t := Trade(book[best.value], 0, Fill(o, 0));
      EmptyOrderEvents(prod, book, o, best.value);
      var e, last := RestingEvent(t), Flush(Some(Extend(None, t)))[0];
      assert (book + [o])[best.value].orderId != (book + [o])[|book|].orderId;
      OwnExactConcat(log, [e], [last], o.orderId);
      OwnExactOne(log + [e], last, o.orderId);
      Announced(log, e, o.orderId);
    } else {
      SubmitAlone(prod, book, o);
      if events != [] {
        OwnExactOne(log, events[0], o.orderId);
      }
    }
  }

  /**
   * The flags of all events of a new order itself are exact if and only if it does not empty two levels and
   * live on; or, if it asks for nothing, if it meets no order.  Both can be read off the book before.
   */
  lemma OwnFlagsAreExactIff(prod: bool, book: seq<Order>, log: seq<FillEvent>, o: Order)
    requires Statuses(book, log) && New(o, book, log)
    ensures OwnExact(log, Submit(prod, book, o).events, o.orderId) <==>
      if o.qty > 0 then !EmptiesTwoLevels(prod, book, o) else Best(prod, book, o).None?
  {
    hide Best;
    if o.qty == 0 {
      EmptyFlagIsExactIff(prod, book, log, o);
      return;
    }
    assert MidStatuses(book, log, o, None);
    RepeatsFromStart(prod, book, o);
    if o.priceType.MARKET? && NoOpposite(book, o) {
      assert !EmptiesTwoLevels(prod, book, o);
    } else {
      hide Repeats, MidStatuses, EmptiesTwoLevels;
      ResumeIsExactIff(prod, book, log, o, None, false);
    }
  }

  // ----- An example: buying three when one is offered at 1.00 and one at 2.00

  const ASK_AT_ONE := Order(1, 1, SELL, LIMIT, 1.0, 1, 1, Accepted)
  const ASK_AT_TWO := Order(2, 1, SELL, LIMIT, 2.0, 1, 1, Accepted)
  const BUY_THREE := Order(3, 2, BUY, LIMIT, 2.0, 3, 3, Accepted)

  function Bought(n: nat): Order
    requires n <= 3
  {
    BUY_THREE.(qtyRemaining := 3 - n, status := if n == 0 then Accepted else if n == 3 then Filled else PartiallyFilled)
  }

  lemma ExampleLevels()
    ensures Level(ASK_AT_ONE) == 100 && Level(ASK_AT_TWO) == Level(BUY_THREE) == 200
    ensures IndexToPrice(100) == 1.0 && IndexToPrice(200) == 2.0
  {
    assert TICKS_PER_DOLLAR == 100;
  }

  lemma FirstIsBest()
    ensures IsBest(false, [ASK_AT_ONE, ASK_AT_TWO], BUY_THREE, 0)
    ensures AfterTrade([ASK_AT_ONE, ASK_AT_TWO], 0, 1) == [ASK_AT_TWO]
  {
    ExampleLevels();
    hide Level, IndexToPrice;
  }

  lemma FirstExampleTrade()
    ensures
      Resume(false, [ASK_AT_ONE, ASK_AT_TWO], BUY_THREE, None, false).events ==
        [FillEvent(1.0, 1, OrderSnapshot(1, 1, 0, Filled), true)] +
        Resume(false, [ASK_AT_TWO], Bought(1), Some(Pending(100, 1, Bought(1))), true).events
  {
    hide IsBest, Resume, Level, IndexToPrice, Eligible, AfterTrade;
    var book := [ASK_AT_ONE, ASK_AT_TWO];
    ExampleLevels();
    FirstIsBest();
    ResumeTrade(false, book, BUY_THREE, None, false, 0);
  }

  lemma SecondExampleTrade()
    ensures
      Resume(false, [ASK_AT_TWO], Bought(1), Some(Pending(100, 1, Bought(1))), true).events ==
        [FillEvent(1.0, 1, OrderSnapshot(3, 3, 2, PartiallyFilled), true),
         FillEvent(2.0, 1, OrderSnapshot(2, 1, 0, Filled), true)] +
        Resume(false, [], Bought(2), Some(Pending(200, 1, Bought(2))), true).events
  {
    ExampleLevels();
    var book := [ASK_AT_TWO];
    assert IsBest(false, book, Bought(1), 0);
    assert AfterTrade(book, 0, 1) == [];
    hide IsBest, Resume, Level, IndexToPrice, Eligible, AfterTrade;
    ResumeTrade(false, book, Bought(1), Some(Pending(100, 1, Bought(1))), true, 0);
  }

  lemma ExampleEnd()
    ensures
      Resume(false, [], Bought(2), Some(Pending(200, 1, Bought(2))), true).events ==
        [FillEvent(2.0, 1, OrderSnapshot(3, 3, 1, PartiallyFilled), true)]
  {
    ExampleLevels();
    hide Level, IndexToPrice, Resume;
    ResumeEnd(false, [], Bought(2), Some(Pending(200, 1, Bought(2))), true);
  }

  /** The buyer's second fill is flagged like the first, although its status is the same. */
  lemma FlagIsSpurious()
    ensures
      var events := Submit(false, [ASK_AT_ONE, ASK_AT_TWO], BUY_THREE).events;
      && |events| == 4
      && events[1] == FillEvent(1.0, 1, OrderSnapshot(3, 3, 2, PartiallyFilled), true)
      && events[2].snapshot.orderId == 2
      && events[3] == FillEvent(2.0, 1, OrderSnapshot(3, 3, 1, PartiallyFilled), true)
  {
    hide Resume;
    FirstExampleTrade();
    SecondExampleTrade();
    ExampleEnd();
  }
}
