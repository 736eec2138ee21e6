/** Laws of whole runs: the book is never crossed, and every order's status history is legal. */
module EngineStatus {
  import opened Options
  import opened TradingTypes
  import opened Ticks
  import opened PriceTime
  import opened EngineRuns

  // ----- The book is never crossed

  /** A bid at or above an ask is tolerated only within one session, and only in production. */
  ghost predicate NotCrossed(prod: bool, book: seq<Order>) {
    forall b, a | 0 <= b < |book| && 0 <= a < |book| && book[b].side == BUY && book[a].side == SELL ::
      Level(book[a]) <= Level(book[b]) ==> prod && book[b].sessionId == book[a].sessionId
  }

  predicate SameTerms(o: Order, o': Order) {
    o'.(qtyRemaining := 0, status := Accepted) == o.(qtyRemaining := 0, status := Accepted)
  }

  ghost predicate ComesFrom(o: Order, from: seq<Order>) {
    exists j :: 0 <= j < |from| && SameTerms(o, from[j])
  }

  /** Every order of one book is in the other, up to what it has left and its status. */
  ghost predicate Remains(book: seq<Order>, from: seq<Order>) {
    forall i :: 0 <= i < |book| ==> ComesFrom(book[i], from)
  }

  lemma RemainsNotCrossed(prod: bool, book: seq<Order>, from: seq<Order>)
    requires Remains(book, from) && NotCrossed(prod, from)
    ensures NotCrossed(prod, book)
  {
  }

  lemma AfterTradeRemains(book: seq<Order>, p: nat, q: nat)
    requires p < |book| && q <= book[p].qtyRemaining
    ensures Remains(AfterTrade(book, p, q), book)
  {
    var book' := AfterTrade(book, p, q);
    forall i | 0 <= i < |book'|
      ensures ComesFrom(book'[i], book)
    {
      var j := if |book'| == |book| || i < p then i else i + 1;
      assert SameTerms(book'[i], book[j]);
    }
  }

  lemma RemainsTransitive(a: seq<Order>, b: seq<Order>, c: seq<Order>)
    requires Remains(a, b) && Remains(b, c)
    ensures Remains(a, c)
  {
    forall i | 0 <= i < |a|
      ensures ComesFrom(a[i], c)
    {
      var j :| 0 <= j < |b| && SameTerms(a[i], b[j]);
      var k :| 0 <= k < |c| && SameTerms(b[j], c[k]);
      assert SameTerms(a[i], c[k]);
    }
  }

  // A match adds nothing to the book, and when the incoming order survives it, nothing
  // the order could still trade with is left.
  lemma {:induction false} MatchExhausts(prod: bool, book: seq<Order>, aggr: Order)
    ensures var m := Match(prod, book, aggr);
      && Remains(m.book, book)
      && (m.trades == [] || 0 < m.aggr.qtyRemaining ==>
            forall q :: 0 <= q < |m.book| ==> !Eligible(prod, aggr, m.book[q]))
    decreases |book|
  {
    var best := Best(prod, book, aggr);
    if best.None? {
      assert forall i :: 0 <= i < |book| ==> SameTerms(book[i], book[i]);
    } else {
      var p := best.value;
      var q := TradeQty(book, aggr, p);
      var book', aggr' := AfterTrade(book, p, q), Fill(aggr, q);
      AfterTradeRemains(book, p, q);
      if aggr'.qtyRemaining != 0 {
        MatchExhausts(prod, book', aggr');
        var m := Match(prod, book', aggr');
        RemainsTransitive(m.book, book', book);
        assert forall i :: 0 <= i < |m.book| ==> Eligible(prod, aggr', m.book[i]) == Eligible(prod, aggr, m.book[i]);
      }
    }
  }

  lemma RestingStaysUncrossed(prod: bool, book: seq<Order>, aggr: Order, o: Order)
    requires NotCrossed(prod, book) && aggr.priceType.LIMIT? && SameTerms(aggr, o)
    requires forall q :: 0 <= q < |book| ==> !Eligible(prod, aggr, book[q])
    ensures NotCrossed(prod, book + [o])
  {
  }

  lemma SubmitStaysUncrossed(prod: bool, book: seq<Order>, aggr: Order)
    requires NotCrossed(prod, book)
    ensures NotCrossed(prod, Submit(prod, book, aggr).book)
  {
    hide Match, Render, NotCrossed, Remains, Eligible;
    var m := Match(prod, book, aggr);
    MatchExhausts(prod, book, aggr);
    RemainsNotCrossed(prod, m.book, book);
    if aggr.priceType.LIMIT? && (m.trades == [] || 0 < m.aggr.qtyRemaining) {
      assert SameTerms(aggr, m.aggr);
      RestingStaysUncrossed(prod, m.book, aggr, m.aggr);
    }
  }

  // In every reachable state no bid is at or above an ask, self-trade prevention apart.
  lemma {:induction false} NeverCrossed(prod: bool, rs: seq<Request>)
    ensures NotCrossed(prod, Run(prod, rs).book)
  {
    if rs != [] {
      var before, r := rs[..|rs| - 1], rs[|rs| - 1];
      NeverCrossed(prod, before);
      var s := Run(prod, before);
      match r
      case Place(o) => SubmitStaysUncrossed(prod, s.book, o);
      case Cancel(id) => WithoutStaysUncrossed(prod, s.book, id);
    }
  }

  lemma WithoutStaysUncrossed(prod: bool, book: seq<Order>, id: OrderId)
    requires NotCrossed(prod, book)
    ensures NotCrossed(prod, Without(book, id))
  {
    WithoutRemains(book, id);
    RemainsNotCrossed(prod, Without(book, id), book);
  }

  lemma WithoutRemains(book: seq<Order>, id: OrderId)
    ensures Remains(Without(book, id), book)
  {
    if book != [] {
      WithoutRemains(book[1..], id);
      var r := Without(book, id);
      forall i | 0 <= i < |r|
        ensures ComesFrom(r[i], book)
      {
        if book[0].orderId != id && i == 0 {
          assert SameTerms(r[0], book[0]);
        } else {
          var i' := if book[0].orderId == id then i else i - 1;
          assert ComesFrom(Without(book[1..], id)[i'], book[1..]);
          var j :| 0 <= j < |book[1..]| && SameTerms(Without(book[1..], id)[i'], book[1..][j]);
          assert SameTerms(r[i], book[j + 1]);
        }
      }
    }
  }

  // ----- Status histories

  /** The status an order was last announced with; its acceptance is announced before it gets here. */
  function LastStatus(log: seq<FillEvent>, id: OrderId): OrderStatus {
    if log == [] then Accepted
    else
      var last := log[|log| - 1];
      if last.snapshot.orderId == id then last.snapshot.status else LastStatus(log[..|log| - 1], id)
  }

  /** Accepted, PartiallyFilled any number of times, then Filled, Unfilled or Done, and no more. */
  predicate LegalStep(prev: OrderStatus, next: OrderStatus) {
    match next
    case PartiallyFilled => prev in {Accepted, PartiallyFilled}
    case Filled => prev in {Accepted, PartiallyFilled}
    case Done => prev in {Accepted, PartiallyFilled}
    case Unfilled => prev == Accepted
    case _ => false
  }

  /** A change of status is always flagged; the flag can be spurious, but only on a repeated partial fill. */
  predicate FlagFits(prev: OrderStatus, e: FillEvent) {
    && (e.snapshot.status != prev ==> e.statusChanged)
    && (e.statusChanged && e.snapshot.status == prev ==> prev == PartiallyFilled)
  }

  /** The flag is set if and only if the status differs from the one the order was last announced with. */
  ghost predicate Exact(log: seq<FillEvent>, e: FillEvent) {
    e.statusChanged <==> e.snapshot.status != LastStatus(log, e.snapshot.orderId)
  }

  /** The flags of events sent after a log are exact, but perhaps those of one order. */
  ghost predicate ExactBut(log: seq<FillEvent>, events: seq<FillEvent>, id: OrderId) {
    forall k :: 0 <= k < |events| && events[k].snapshot.orderId != id ==> Exact(log + events[..k], events[k])
  }

  ghost predicate Legal(log: seq<FillEvent>) {
    log == [] ||
    var earlier, last := log[..|log| - 1], log[|log| - 1];
    var prev := LastStatus(earlier, last.snapshot.orderId);
    Legal(earlier) && LegalStep(prev, last.snapshot.status) && FlagFits(prev, last)
  }

  predicate Live(o: Order) {
    && 0 < o.qtyRemaining <= o.qty
    && o.status == if o.qtyRemaining == o.qty then Accepted else PartiallyFilled
  }

  /** A resting order is untraded and Accepted or partly traded and PartiallyFilled, as announced. */
  ghost predicate AllLive(book: seq<Order>, log: seq<FillEvent>) {
    forall i :: 0 <= i < |book| ==> Live(book[i]) && LastStatus(log, book[i].orderId) == book[i].status
  }

  ghost predicate Statuses(book: seq<Order>, log: seq<FillEvent>) {
    UniqueIds(book) && AllLive(book, log) && Legal(log)
  }

  /** The same in the middle of a match, while the incoming order can still trade. */
  ghost predicate MidStatuses(book: seq<Order>, log: seq<FillEvent>, aggr: Order, pending: Option<Pending>) {
    && UniqueIds(book + [aggr]) && AllLive(book, log) && Legal(log) && Live(aggr)
    && LastStatus(log, aggr.orderId) in {Accepted, PartiallyFilled}
    && (pending.None? ==> LastStatus(log, aggr.orderId) == aggr.status)
    && (pending.Some? ==> pending.value.aggr == aggr && 0 < pending.value.qty && aggr.status == PartiallyFilled)
  }

  lemma Announced(log: seq<FillEvent>, e: FillEvent, id: OrderId)
    ensures LastStatus(log + [e], id) == if e.snapshot.orderId == id then e.snapshot.status else LastStatus(log, id)
    ensures
      var prev := LastStatus(log, e.snapshot.orderId);
      Legal(log + [e]) <==> Legal(log) && LegalStep(prev, e.snapshot.status) && FlagFits(prev, e)
  {
    assert (log + [e])[..|log|] == log;
  }

  // An event of another order leaves the book's orders as they were announced.
  lemma OthersStayLive(book: seq<Order>, log: seq<FillEvent>, e: FillEvent)
    requires AllLive(book, log) && forall i :: 0 <= i < |book| ==> book[i].orderId != e.snapshot.orderId
    ensures AllLive(book, log + [e])
  {
    forall i | 0 <= i < |book|
      ensures LastStatus(log + [e], book[i].orderId) == LastStatus(log, book[i].orderId)
    {
      Announced(log, e, book[i].orderId);
    }
  }

  lemma Apart(book: seq<Order>, aggr: Order)
    requires UniqueIds(book + [aggr])
    ensures UniqueIds(book) && forall i :: 0 <= i < |book| ==> book[i].orderId != aggr.orderId
  {
    var all := book + [aggr];
    forall i | 0 <= i < |book|
      ensures book[i] == all[i] && book[i].orderId != aggr.orderId
    {
      assert all[i].orderId != all[|book|].orderId;
    }
  }

  lemma FlushStaysLegal(book: seq<Order>, log: seq<FillEvent>, aggr: Order, pending: Option<Pending>)
    requires MidStatuses(book, log, aggr, pending)
    ensures MidStatuses(book, log + Flush(pending), aggr, None)
  {
    Apart(book, aggr);
    if pending.None? {
      assert log + Flush(pending) == log;
    } else {
      var e := Flush(pending)[0];
      Announced(log, e, aggr.orderId);
      OthersStayLive(book, log, e);
    }
  }

  /** The incoming order is filled, and its last fills are pending. */
  ghost predicate JustFilled(book: seq<Order>, log: seq<FillEvent>, aggr: Order, pending: Pending) {
    && UniqueIds(book + [aggr]) && AllLive(book, log) && Legal(log)
    && LastStatus(log, aggr.orderId) in {Accepted, PartiallyFilled}
    && aggr.qtyRemaining == 0 < aggr.qty && aggr.status == Filled && pending.aggr == aggr
  }

  lemma LastFlushStaysLegal(book: seq<Order>, log: seq<FillEvent>, aggr: Order, pending: Pending)
    requires JustFilled(book, log, aggr, pending)
    ensures Statuses(book, log + Flush(Some(pending)))
  {
    Apart(book, aggr);
    var e := Flush(Some(pending))[0];
    Announced(log, e, aggr.orderId);
    OthersStayLive(book, log, e);
  }

  lemma FillStaysLegal(book: seq<Order>, log: seq<FillEvent>, aggr: Order, pending: Option<Pending>, p: nat,
                       pending': Pending)
    requires MidStatuses(book, log, aggr, pending) && p < |book|
    requires var q := TradeQty(book, aggr, p);
      pending'.aggr == Fill(aggr, q) && pending'.qty == q + PendingQty(pending)
    ensures
      var q := TradeQty(book, aggr, p);
      var t := Trade(book[p], q, Fill(aggr, q));
      var book', log' := AfterTrade(book, p, q), log + [RestingEvent(t)];
      if t.aggr.qtyRemaining == 0 then JustFilled(book', log', t.aggr, pending')
      else MidStatuses(book', log', t.aggr, Some(pending'))
  {
    var q := TradeQty(book, aggr, p);
    var t := Trade(book[p], q, Fill(aggr, q));
    var e, book', log' := RestingEvent(t), AfterTrade(book, p, q), log + [RestingEvent(t)];
    Apart(book, aggr);
    UniqueAfterTrade(book, p, q, aggr, t.aggr);
    Announced(log, e, book[p].orderId);
    Announced(log, e, aggr.orderId);
    forall i | 0 <= i < |book'|
      ensures Live(book'[i]) && LastStatus(log', book'[i].orderId) == book'[i].status
    {
      var j := if |book'| == |book| || i < p then i else i + 1;
      assert book'[i].orderId == book[j].orderId;
      assert j != p ==> book'[i] == book[j] && book[j].orderId != book[p].orderId;
      Announced(log, e, book[j].orderId);
    }
  }

  lemma TradeStaysLegal(book: seq<Order>, log: seq<FillEvent>, aggr: Order, pending: Option<Pending>, p: nat)
    requires MidStatuses(book, log, aggr, pending) && p < |book|
    ensures
      var q := TradeQty(book, aggr, p);
      var t := Trade(book[p], q, Fill(aggr, q));
      var book', log' := AfterTrade(book, p, q), log + (FlushBefore(pending, t) + [RestingEvent(t)]);
      if t.aggr.qtyRemaining == 0 then JustFilled(book', log', t.aggr, Extend(pending, t))
      else MidStatuses(book', log', t.aggr, Some(Extend(pending, t)))
  {
    var q := TradeQty(book, aggr, p);
    var t := Trade(book[p], q, Fill(aggr, q));
    var same := pending.Some? && pending.value.level == t.TradeLevel();
    var log1 := log + FlushBefore(pending, t);
    if same {
      assert log1 == log;
    } else {
      FlushStaysLegal(book, log, aggr, pending);
    }
    assert log + (FlushBefore(pending, t) + [RestingEvent(t)]) == log1 + [RestingEvent(t)];
    FillStaysLegal(book, log1, aggr, if same then pending else None, p, Extend(pending, t));
  }

  lemma FinishStaysLegal(book: seq<Order>, log: seq<FillEvent>, aggr: Order, traded: bool)
    requires MidStatuses(book, log, aggr, None)
    ensures var last := Finish(book, aggr, traded); Statuses(last.book, log + last.events)
  {
    Apart(book, aggr);
    var last := Finish(book, aggr, traded);
    if last.events == [] {
      assert log + last.events == log;
    } else {
      var e := last.events[0];
      assert last.events == [e];
      Announced(log, e, aggr.orderId);
      OthersStayLive(book, log, e);
    }
  }

  lemma {:induction false} ResumeStaysLegal(prod: bool, book: seq<Order>, log: seq<FillEvent>, aggr: Order,
                                            pending: Option<Pending>, traded: bool)
    requires MidStatuses(book, log, aggr, pending)
    ensures var r := Resume(prod, book, aggr, pending, traded); Statuses(r.book, log + r.events)
    decreases |book|
  {
    hide MidStatuses, Statuses, Resume, JustFilled;
    var best := Best(prod, book, aggr);
    if best.None? {
      ResumeEnd(prod, book, aggr, pending, traded);
      FlushStaysLegal(book, log, aggr, pending);
      FinishStaysLegal(book, log + Flush(pending), aggr, traded);
      var last := Finish(book, aggr, traded);
      assert log + (Flush(pending) + last.events) == (log + Flush(pending)) + last.events;
    } else {
      var p := best.value;
      var q := TradeQty(book, aggr, p);
      var t := Trade(book[p], q, Fill(aggr, q));
      var book', news, ext := AfterTrade(book, p, q), FlushBefore(pending, t) + [RestingEvent(t)], Extend(pending, t);
      ResumeTrade(prod, book, aggr, pending, traded, p);
      TradeStaysLegal(book, log, aggr, pending, p);
      if t.aggr.qtyRemaining == 0 {
        LastFlushStaysLegal(book', log + news, t.aggr, ext);
        assert log + (news + Flush(Some(ext))) == (log + news) + Flush(Some(ext));
      } else {
        ResumeStaysLegal(prod, book', log + news, t.aggr, Some(ext), true);
        var r := Resume(prod, book', t.aggr, Some(ext), true);
        assert log + (news + r.events) == (log + news) + r.events;
      }
    }
  }

  // ----- Flags of resting orders

  lemma ExactButConcat(log: seq<FillEvent>, a: seq<FillEvent>, b: seq<FillEvent>, id: OrderId)
    requires ExactBut(log, a, id) && ExactBut(log + a, b, id)
    ensures ExactBut(log, a + b, id)
  {
    var all := a + b;
    forall k | 0 <= k < |all| && all[k].snapshot.orderId != id
      ensures Exact(log + all[..k], all[k])
    {
      if k < |a| {
        assert all[..k] == a[..k];
      } else {
        assert log + all[..k] == (log + a) + b[..k - |a|];
      }
    }
  }

  lemma OwnEventsOnly(log: seq<FillEvent>, events: seq<FillEvent>, id: OrderId)
    requires forall k :: 0 <= k < |events| ==> events[k].snapshot.orderId == id
    ensures ExactBut(log, events, id)
  {
  }

  // The event of a resting order that is live and as announced has an exact flag.
  lemma RestingFlagIsExact(book: seq<Order>, log: seq<FillEvent>, p: nat, t: Trade, id: OrderId)
    requires AllLive(book, log) && p < |book| && t.resting == book[p] && t.Valid()
    ensures ExactBut(log, [RestingEvent(t)], id)
  {
    assert LastStatus(log, book[p].orderId) == book[p].status;
    assert log + [RestingEvent(t)][..0] == log;
  }

  lemma TradeFlagIsExact(book: seq<Order>, log: seq<FillEvent>, aggr: Order, pending: Option<Pending>, p: nat)
    requires MidStatuses(book, log, aggr, pending) && p < |book|
    ensures
      var q := TradeQty(book, aggr, p);
      var t := Trade(book[p], q, Fill(aggr, q));
      ExactBut(log, FlushBefore(pending, t) + [RestingEvent(t)], aggr.orderId)
  {
    var q := TradeQty(book, aggr, p);
    var t := Trade(book[p], q, Fill(aggr, q));
    FlushStaysLegal(book, log, aggr, pending);
    assert log + [] == log;
    OwnEventsOnly(log, FlushBefore(pending, t), aggr.orderId);
    RestingFlagIsExact(book, log + FlushBefore(pending, t), p, t, aggr.orderId);
    ExactButConcat(log, FlushBefore(pending, t), [RestingEvent(t)], aggr.orderId);
  }

  lemma {:induction false} ResumeFlagsAreExact(prod: bool, book: seq<Order>, log: seq<FillEvent>, aggr: Order,
                                               pending: Option<Pending>, traded: bool)
    requires MidStatuses(book, log, aggr, pending)
    ensures ExactBut(log, Resume(prod, book, aggr, pending, traded).events, aggr.orderId)
    decreases |book|
  {
    var best := Best(prod, book, aggr);
    assert best.Some? ==> best.value < |book|;
    assert pending.Some? ==> pending.value.aggr == aggr;
    hide MidStatuses, Resume, ExactBut, JustFilled, Best;
    if best.None? {
      ResumeEnd(prod, book, aggr, pending, traded);
      OwnEventsOnly(log, Flush(pending) + Finish(book, aggr, traded).events, aggr.orderId);
    } else {
      var p := best.value;
      var q := TradeQty(book, aggr, p);
      var t := Trade(book[p], q, Fill(aggr, q));
      var book', news, ext := AfterTrade(book, p, q), FlushBefore(pending, t) + [RestingEvent(t)], Extend(pending, t);
      ResumeTrade(prod, book, aggr, pending, traded, p);
      TradeFlagIsExact(book, log, aggr, pending, p);
      TradeStaysLegal(book, log, aggr, pending, p);
      if t.aggr.qtyRemaining == 0 {
        OwnEventsOnly(log + news, Flush(Some(ext)), aggr.orderId);
        ExactButConcat(log, news, Flush(Some(ext)), aggr.orderId);
      } else {
        ResumeFlagsAreExact(prod, book', log + news, t.aggr, Some(ext), true);
        ExactButConcat(log, news, Resume(prod, book', t.aggr, Some(ext), true).events, aggr.orderId);
      }
    }
  }

  // ----- Whole runs

  lemma NewOrderUnannounced(log: seq<FillEvent>, placed: map<OrderId, Order>, id: OrderId)
    requires Running(log, placed) && id !in placed
    ensures LastStatus(log, id) == Accepted
  {
  }

  /** An order placed for the first time, of which nothing was announced yet. */
  ghost predicate New(o: Order, book: seq<Order>, log: seq<FillEvent>) {
    && UniqueIds(book + [o]) && LastStatus(log, o.orderId) == Accepted
    && o.qtyRemaining == o.qty && o.status == Accepted
  }

  lemma PlaceStaysLegal(prod: bool, book: seq<Order>, log: seq<FillEvent>, o: Order)
    requires Statuses(book, log) && New(o, book, log) && o.qty > 0
    ensures
      var r := Submit(prod, book, o);
      Statuses(r.book, log + r.events) && ExactBut(log, r.events, o.orderId)
  {
    assert log + [] == log;
    assert MidStatuses(book, log, o, None);
    ResumeStaysLegal(prod, book, log, o, None, false);
    ResumeFlagsAreExact(prod, book, log, o, None, false);
  }

  /** The condition under which an order for nothing does no harm: it is a market order that nothing can trade with. */
  predicate Misses(prod: bool, book: seq<Order>, o: Order) {
    o.priceType.MARKET? && Best(prod, book, o).None?
  }

  /** The other order's event, and its own, which is Filled without a flag. */
  lemma EmptyOrderEvents(prod: bool, book: seq<Order>, o: Order, p: nat)
    requires o.qty == o.qtyRemaining == 0 && p < |book| && IsBest(prod, book, o, p)
    ensures
      var t := Trade(book[p], 0, Fill(o, 0));
      && Flush(Some(Extend(None, t))) == [FillEvent(IndexToPrice(Level(book[p])), 0, Snapshot(Fill(o, 0)), false)]
      && Submit(prod, book, o).events == [RestingEvent(t)] + Flush(Some(Extend(None, t)))
  {
    var t := Trade(book[p], 0, Fill(o, 0));
    assert book[p].side != o.side;
    ResumeTrade(prod, book, o, None, false, p);
    assert [] + [RestingEvent(t)] == [RestingEvent(t)];
  }

  // An order for nothing that meets another is announced Filled without its flag.
  lemma EmptyOrderMeets(prod: bool, book: seq<Order>, log: seq<FillEvent>, o: Order, p: nat)
    requires Statuses(book, log) && New(o, book, log) && o.qty == 0
    requires p < |book| && IsBest(prod, book, o, p)
    ensures !Legal(log + Submit(prod, book, o).events)
  {
    var t := Trade(book[p], 0, Fill(o, 0));
    var e, last := RestingEvent(t), Flush(Some(Extend(None, t)))[0];
    assert (book + [o])[p].orderId != (book + [o])[|book|].orderId;
    EmptyOrderEvents(prod, book, o, p);
    hide Submit, IsBest, Level, IndexToPrice;
    assert Submit(prod, book, o).events == [e, last];
    assert log + [e, last] == (log + [e]) + [last];
    Announced(log, e, o.orderId);
    Announced(log + [e], last, o.orderId);
  }

  lemma SubmitAlone(prod: bool, book: seq<Order>, o: Order)
    requires Best(prod, book, o).None?
    ensures
      var r := Submit(prod, book, o);
      if o.priceType.LIMIT? then r == Result(book + [o], [])
      else r.book == book &&
           (r.events == [] || r.events == [FillEvent(0.0, 0, Snapshot(o.(status := Unfilled)), true)])
  {
    hide Best, Resume, NoOpposite;
    ResumeEnd(prod, book, o, None, false);
  }

  // One that meets none is dropped, Unfilled at most, if it is a market order, and rests with nothing left if not.
  lemma EmptyOrderAlone(prod: bool, book: seq<Order>, log: seq<FillEvent>, o: Order)
    requires Statuses(book, log) && New(o, book, log) && o.qty == 0 && Best(prod, book, o).None?
    ensures
      var r := Submit(prod, book, o);
      && (Statuses(r.book, log + r.events) <==> o.priceType.MARKET?)
      && ExactBut(log, r.events, o.orderId)
  {
    hide Best, Submit, Level;
    SubmitAlone(prod, book, o);
    var r := Submit(prod, book, o);
    if o.priceType.LIMIT? {
      assert !Live((book + [o])[|book|]);
    } else if r.events == [] {
      assert log + r.events == log;
    } else {
      var e := r.events[0];
      assert r.events == [e];
      Apart(book, o);
      Announced(log, e, o.orderId);
      OthersStayLive(book, log, e);
    }
  }

  /** An order for nothing, which validation lets through, keeps all histories legal if and only if it misses. */
  lemma EmptyOrderIsLegalIff(prod: bool, book: seq<Order>, log: seq<FillEvent>, o: Order)
    requires Statuses(book, log) && New(o, book, log) && o.qty == 0
    ensures
      var r := Submit(prod, book, o);
      && (Statuses(r.book, log + r.events) <==> Misses(prod, book, o))
      && (Misses(prod, book, o) ==> ExactBut(log, r.events, o.orderId))
  {
    var best := Best(prod, book, o);
    if best.Some? {
      EmptyOrderMeets(prod, book, log, o, best.value);
    } else {
      EmptyOrderAlone(prod, book, log, o);
    }
  }

  /** At every moment of a run all is legal, resting orders are as announced, and their flags were exact. */
  ghost predicate LegalRun(prod: bool, rs: seq<Request>) {
    var s := Run(prod, rs);
    && Statuses(s.book, s.log)
    && (rs == [] ||
        var before, r := rs[..|rs| - 1], rs[|rs| - 1];
        && LegalRun(prod, before)
        && (r.Place? ==>
              var s := Run(prod, before);
              ExactBut(s.log, Submit(prod, s.book, r.order).events, r.order.orderId)))
  }

  /** Every order for nothing missed. */
  predicate EmptyOrdersMiss(prod: bool, rs: seq<Request>) {
    rs == [] ||
    var before, r := rs[..|rs| - 1], rs[|rs| - 1];
    && EmptyOrdersMiss(prod, before)
    && (r.Place? && r.order.qty == 0 ==> Misses(prod, Run(prod, before).book, r.order))
  }

  lemma PlacedIsNew(s: EngineState, o: Order)
    requires Statuses(s.book, s.log) && Conserved(s.book, s.log, s.placed)
    requires o.orderId !in s.placed && o.qtyRemaining == o.qty && o.status == Accepted
    ensures New(o, s.book, s.log)
  {
    NewOrderUnannounced(s.log, s.placed, o.orderId);
    assert forall i :: 0 <= i < |s.book| ==> Known(s.book[i], s.placed);
  }

  /** A run keeps all histories legal if and only if every order for nothing missed. */
  lemma {:induction false} HistoriesAreLegal(prod: bool, rs: seq<Request>)
    requires Lawful(prod, rs)
    ensures LegalRun(prod, rs) <==> EmptyOrdersMiss(prod, rs)
  {
    if rs != [] {
      var before, r := rs[..|rs| - 1], rs[|rs| - 1];
      HistoriesAreLegal(prod, before);
      QuantityIsConserved(prod, before);
      var s := Run(prod, before);
      if LegalRun(prod, before) {
        assert Statuses(s.book, s.log);
        hide Conserved, Running, Statuses, ExactBut, New, Submit, Misses;
        match r
        case Place(o) =>
          PlacedIsNew(s, o);
          if o.qty > 0 {
            PlaceStaysLegal(prod, s.book, s.log, o);
          } else {
            EmptyOrderIsLegalIff(prod, s.book, s.log, o);
          }
        case Cancel(id) =>
          CancelStaysLegal(s.book, s.log, id);
      }
    }
  }

  lemma CancelStaysLegal(book: seq<Order>, log: seq<FillEvent>, id: OrderId)
    requires Statuses(book, log)
    ensures Statuses(Without(book, id), log)
  {
    WithoutIsPart(book, id);
  }
}
