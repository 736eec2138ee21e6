/**
 * What the market tells about orders.  Every order's fills and statuses are told as its engine announced them, so the
 * quantities told add up, and the last status told is the last one announced.
 */
module MarketNotices {
  import opened Options
  import opened TradingTypes
  import opened PriceTime
  import opened OrderIds
  import opened ExchangeServers
  import opened Exchanges
  import opened Markets
  import EngineRuns
  import EngineStatus
  import RestLaws
  import Routing

  /** A fill as an order's owner is told of it: the quantity traded, the price of it, and the quantity left. */
  datatype Deal = Deal(qty: nat, price: Price, left: nat)

  /** The fills that notices tell of an order. */
  function ToldDeals(notices: seq<Notice>, id: OrderId): seq<Deal> {
    if notices == [] then []
    else
      var before, last := ToldDeals(notices[..|notices| - 1], id), notices[|notices| - 1];
      match last
      case Fills(orderId, qty, price, qtyRemaining) =>
        if orderId == id then before + [Deal(qty, price, qtyRemaining)] else before
      case StatusUpdate(_, _) => before
      case CancelResponse(_, _) => before
  }

  /** The last status that notices tell of an order. */
  function ToldStatus(notices: seq<Notice>, id: OrderId): Option<OrderStatus> {
    if notices == [] then None
    else
      var last := notices[|notices| - 1];
      if last.StatusUpdate? && last.orderId == id then Some(last.status) else ToldStatus(notices[..|notices| - 1], id)
  }

  /** The trades of an order in its engine's log. */
  function Deals(log: seq<FillEvent>, id: OrderId): seq<Deal> {
    if log == [] then []
    else
      var before, last := Deals(log[..|log| - 1], id), log[|log| - 1];
      if last.snapshot.orderId == id && last.qty > 0
      then before + [Deal(last.qty, last.price, last.snapshot.qtyRemaining)] else before
  }

  /** The last status in the log that is flagged as a change; orders start out as accepted. */
  function LastFlagged(log: seq<FillEvent>, id: OrderId): OrderStatus {
    if log == [] then Accepted
    else
      var last := log[|log| - 1];
      if last.snapshot.orderId == id && last.statusChanged then last.snapshot.status
      else LastFlagged(log[..|log| - 1], id)
  }

  /** The notices tell of the order what is in the log. */
  predicate Tells(notices: seq<Notice>, log: seq<FillEvent>, id: OrderId) {
    ToldDeals(notices, id) == Deals(log, id) && ToldStatus(notices, id) == Some(LastFlagged(log, id))
  }

  ghost predicate NoticesFit(x: ExchangeState, name: string, reported: seq<FillEvent>) {
    forall id :: id in x.lookup && x.lookup[id] == name ==> Tells(x.toServer, reported, id)
  }

  // ----- One more notice, one more event

  lemma ToldPush(notices: seq<Notice>, n: Notice, id: OrderId)
    ensures ToldDeals(notices + [n], id) ==
      if n.Fills? && n.orderId == id then ToldDeals(notices, id) + [Deal(n.qty, n.price, n.qtyRemaining)]
      else ToldDeals(notices, id)
    ensures ToldStatus(notices + [n], id) ==
      if n.StatusUpdate? && n.orderId == id then Some(n.status) else ToldStatus(notices, id)
  {
    assert (notices + [n])[..|notices|] == notices;
  }

  lemma DealsPush(log: seq<FillEvent>, e: FillEvent, id: OrderId)
    ensures Deals(log + [e], id) ==
      if e.snapshot.orderId == id && e.qty > 0 then Deals(log, id) + [Deal(e.qty, e.price, e.snapshot.qtyRemaining)]
      else Deals(log, id)
    ensures LastFlagged(log + [e], id) ==
      if e.snapshot.orderId == id && e.statusChanged then e.snapshot.status else LastFlagged(log, id)
  {
    assert (log + [e])[..|log|] == log;
  }

  /** Reporting an event tells its order of it, and no other. */
  lemma ReportTells(notices: seq<Notice>, log: seq<FillEvent>, e: FillEvent, id: OrderId)
    ensures Tells(notices, log, id) ==> Tells(notices + Reports(e), log + [e], id)
    ensures e.snapshot.orderId != id && Tells(notices, log, id) ==> Tells(notices + Reports(e), log, id)
  {
    var o := e.snapshot.orderId;
    var fill := if e.qty > 0 then [Fills(o, e.qty, e.price, e.snapshot.qtyRemaining)] else [];
    var status := if e.statusChanged then [StatusUpdate(o, e.snapshot.status)] else [];
    assert Reports(e) == fill + status;
    assert notices + Reports(e) == (notices + fill) + status;
    DealsPush(log, e, id);
    if fill == [] {
      assert notices + fill == notices;
    } else {
      ToldPush(notices, fill[0], id);
    }
    if status == [] {
      assert (notices + fill) + status == notices + fill;
    } else {
      ToldPush(notices + fill, status[0], id);
    }
  }

  // ----- Orders nobody was told of

  lemma {:induction false} NothingTold(notices: seq<Notice>, id: OrderId)
    requires forall i :: 0 <= i < |notices| ==> notices[i].orderId != id
    ensures ToldDeals(notices, id) == []
  {
    if notices != [] {
      NothingTold(notices[..|notices| - 1], id);
    }
  }

  lemma {:induction false} NothingDealt(log: seq<FillEvent>, placed: map<OrderId, Order>, id: OrderId)
    requires EngineRuns.Running(log, placed) && id !in placed
    ensures Deals(log, id) == [] && LastFlagged(log, id) == Accepted
  {
    if log != [] {
      NothingDealt(log[..|log| - 1], placed, id);
    }
  }

  lemma {:induction false} RunningPrefix(log: seq<FillEvent>, placed: map<OrderId, Order>, n: nat)
    requires EngineRuns.Running(log, placed) && n <= |log|
    ensures EngineRuns.Running(log[..n], placed)
  {
    if n < |log| {
      RunningPrefix(log[..|log| - 1], placed, n);
      assert log[..|log| - 1][..n] == log[..n];
    } else {
      assert log[..n] == log;
    }
  }

  // ----- The steps

  /** What of an engine's log has been reported. */
  function Reported(log: seq<FillEvent>, waiting: seq<FillEvent>): seq<FillEvent>
    requires |waiting| <= |log|
  {
    log[..|log| - |waiting|]
  }

  /** A new order is announced as accepted. */
  lemma TakeTells(x: ExchangeState, r: OrderRequest, attempt: Attempt, name: string, reported: seq<FillEvent>,
                  placed: map<OrderId, Order>)
    requires ExchangeFits(x) && r.orderId !in x.lookup && OrderTaken(x, r, attempt).Some?
    requires NoticesFit(x, name, reported) && EngineRuns.Running(reported, placed) && placed.Keys <= x.lookup.Keys
    ensures NoticesFit(OrderTaken(x, r, attempt).value, name, reported)
  {
    var x' := OrderTaken(x, r, attempt).value;
    if CreateOrder(r).Some? {
      var notice := StatusUpdate(r.orderId, Accepted);
      NothingTold(x.toServer, r.orderId);
      assert r.orderId !in placed.Keys;
      NothingDealt(reported, placed, r.orderId);
      hide ToldDeals, ToldStatus, Deals, LastFlagged, EngineFits;
      forall id | id in x'.lookup && x'.lookup[id] == name
        ensures Tells(x'.toServer, reported, id)
      {
        ToldPush(x.toServer, notice, id);
      }
    }
  }

  lemma CancelTells(x: ExchangeState, session: SessionId, orderNum: nat, name: string, reported: seq<FillEvent>)
    requires NoticesFit(x, name, reported)
    ensures NoticesFit(CancelTaken(x, session, orderNum), name, reported)
  {
    var x' := CancelTaken(x, session, orderNum);
    hide ToldDeals, ToldStatus, Deals, LastFlagged, Without, Resting, GenerateOrderId;
    if x' != x {
      forall id | id in x'.lookup && x'.lookup[id] == name
        ensures Tells(x'.toServer, reported, id)
      {
        ToldPush(x.toServer, x'.toServer[|x.toServer|], id);
      }
    }
  }

  lemma ReportKeeps(x: ExchangeState, n: string, name: string, reported: seq<FillEvent>)
    requires ExchangeFits(x) && n in x.engines && x.engines[n].events != [] && NoticesFit(x, name, reported)
    ensures
      NoticesFit(FillReported(x, n), name, if n == name then reported + [x.engines[n].events[0]] else reported)
  {
    var e := x.engines[n].events[0];
    assert EngineFits(x.engines[n], n, x.lookup);
    assert e.snapshot.orderId in EventIds(x.engines[n].events);
    hide Tells, Reports, EngineFits;
    forall id | id in x.lookup && x.lookup[id] == name
      ensures Tells(x.toServer + Reports(e), if n == name then reported + [e] else reported, id)
    {
      ReportTells(x.toServer, reported, e, id);
    }
  }

  lemma ReportedSame(log: seq<FillEvent>, waiting: seq<FillEvent>, more: seq<FillEvent>)
    requires |waiting| <= |log|
    ensures Reported(log + more, waiting + more) == Reported(log, waiting)
  {
  }

  lemma ReportedOneMore(log: seq<FillEvent>, waiting: seq<FillEvent>)
    requires EndsWith(log, waiting) && waiting != []
    ensures Reported(log, waiting[1..]) == Reported(log, waiting) + [waiting[0]]
  {
    var n := |log| - |waiting|;
    assert log[n..][0] == waiting[0];
    assert log[..n + 1] == log[..n] + [log[n]];
  }

  /** The notices fit an engine that has got these requests. */
  ghost predicate ToldOf(prod: bool, x: ExchangeState, name: string, rs: seq<EngineRuns.Request>) {
    var single := EngineRuns.Run(prod, rs);
    && name in x.engines && |x.engines[name].events| <= |single.log|
    && NoticesFit(x, name, Reported(single.log, x.engines[name].events))
  }

  lemma MatchStepTells(prod: bool, x: ExchangeState, n: string, name: string, rs: seq<EngineRuns.Request>)
    requires n in x.engines && x.engines[n].pending != [] && ToldOf(prod, x, name, rs)
    ensures
      var rs' := if n == name then rs + [EngineRuns.Place(x.engines[name].pending[0])] else rs;
      x.engines[name].book == EngineRuns.Run(prod, rs).book ==> ToldOf(prod, OrderMatched(prod, x, n), name, rs')
  {
    hide EngineRuns.Run, NoticesFit, Submit;
    if n == name {
      var e, o := x.engines[name], x.engines[name].pending[0];
      OneMore(prod, rs, EngineRuns.Place(o));
      ReportedSame(EngineRuns.Run(prod, rs).log, e.events, Submit(prod, e.book, o).events);
    }
    SameNotices(x, OrderMatched(prod, x, n), name, Reported(EngineRuns.Run(prod, rs).log, x.engines[name].events));
  }

  lemma SameNotices(x: ExchangeState, x': ExchangeState, name: string, reported: seq<FillEvent>)
    requires NoticesFit(x, name, reported) && x'.lookup == x.lookup && x'.toServer == x.toServer
    ensures NoticesFit(x', name, reported)
  {
  }

  lemma ReportStepTells(prod: bool, x: ExchangeState, n: string, name: string, rs: seq<EngineRuns.Request>)
    requires ExchangeFits(x) && n in x.engines && x.engines[n].events != [] && ToldOf(prod, x, name, rs)
    requires EndsWith(EngineRuns.Run(prod, rs).log, x.engines[name].events)
    ensures ToldOf(prod, FillReported(x, n), name, rs)
  {
    hide EngineRuns.Run, NoticesFit, ExchangeFits, EndsWith;
    var log, events := EngineRuns.Run(prod, rs).log, x.engines[name].events;
    ReportKeeps(x, n, name, Reported(log, events));
    if n == name {
      ReportedOneMore(log, events);
    }
  }

  lemma TakeNewTells(prod: bool, x: ExchangeState, r: OrderRequest, attempt: Attempt, name: string,
                     rs: seq<EngineRuns.Request>)
    requires ExchangeFits(x) && r.orderId !in x.lookup && OrderTaken(x, r, attempt).Some? && ToldOf(prod, x, name, rs)
    requires
      var single := EngineRuns.Run(prod, rs);
      EngineRuns.Running(single.log, single.placed) && single.placed.Keys <= x.lookup.Keys
    ensures ToldOf(prod, OrderTaken(x, r, attempt).value, name, rs)
  {
    hide EngineRuns.Run, NoticesFit, ExchangeFits, EngineRuns.Running;
    var single, events := EngineRuns.Run(prod, rs), x.engines[name].events;
    RunningPrefix(single.log, single.placed, |single.log| - |events|);
    TakeTells(x, r, attempt, name, Reported(single.log, events), single.placed);
  }

  lemma TakeCancelTells(prod: bool, x: ExchangeState, session: SessionId, orderNum: nat, name: string,
                        rs: seq<EngineRuns.Request>, r: EngineRuns.Request)
    requires ToldOf(prod, x, name, rs) && r.Cancel?
    ensures ToldOf(prod, CancelTaken(x, session, orderNum), name, rs)
    ensures ToldOf(prod, CancelTaken(x, session, orderNum), name, rs + [r])
  {
    OneMore(prod, rs, r);
    hide EngineRuns.Run, NoticesFit, Without, Resting, GenerateOrderId;
    CancelTells(x, session, orderNum, name, Reported(EngineRuns.Run(prod, rs).log, x.engines[name].events));
  }

  lemma FirstMessageFits(s: Routing.System, supported: set<string>)
    requires Routing.Inv(s, supported) && s.g.toExchange != []
    ensures ExchangeFits(s.x)
    ensures s.g.toExchange[0].NewOrder? ==> s.g.toExchange[0].order.orderId !in s.x.lookup
  {
    hide Routing.SessionsInv, Routing.OwnersInv, Routing.LiveInv, ExchangeFits;
    assert Routing.MessageFits(s, s.g.toExchange[0]);
  }

  lemma AskedOfTake(s: Routing.System, attempt: Attempt, name: string)
    requires Routing.Enabled(s, Routing.Take(attempt))
    ensures
      var msg, asked := s.g.toExchange[0], Asked(s, Routing.Take(attempt), name);
      if msg.NewOrder? then asked == []
      else asked == [] || asked == [EngineRuns.Cancel(GenerateOrderId(msg.session, msg.orderNum))]
  {
    hide GenerateOrderId, OrderTaken;
  }

  lemma TakeStepTells(prod: bool, supported: set<string>, s: Routing.System, attempt: Attempt, name: string,
                      rs: seq<EngineRuns.Request>)
    requires Routing.Inv(s, supported) && Routing.Enabled(s, Routing.Take(attempt)) && ToldOf(prod, s.x, name, rs)
    requires
      var single := EngineRuns.Run(prod, rs);
      EngineRuns.Running(single.log, single.placed) && single.placed.Keys <= s.x.lookup.Keys
    ensures ToldOf(prod, Routing.Taken(s, attempt), name, rs + Asked(s, Routing.Take(attempt), name))
  {
    var msg := s.g.toExchange[0];
    FirstMessageFits(s, supported);
    AskedOfTake(s, attempt, name);
    hide Routing.Inv, ToldOf, ExchangeFits, OrderTaken, CancelTaken, GenerateOrderId, EngineRuns.Running,
      EngineRuns.Run,
      Asked, CancelsIn;
    assert rs + [] == rs;
    if msg.NewOrder? {
      TakeNewTells(prod, s.x, msg.order, attempt, name, rs);
    } else {
      TakeCancelTells(prod, s.x, msg.session, msg.orderNum, name, rs,
                      EngineRuns.Cancel(GenerateOrderId(msg.session, msg.orderNum)));
    }
  }

  lemma StepTells(prod: bool, supported: set<string>, s: Routing.System, a: Routing.Action, name: string,
                  rs: seq<EngineRuns.Request>)
    requires Routing.Inv(s, supported) && Routing.Enabled(s, a) && ToldOf(prod, s.x, name, rs)
    requires name in s.x.engines && Follows(prod, s.x.engines[name], s.x.lookup, rs)
    ensures ToldOf(prod, Routing.Do(s, prod, supported, a).x, name, rs + Asked(s, a, name))
  {
    hide Routing.Inv, ToldOf, ExchangeFits, Routing.Taken, OrderMatched, FillReported, Handled, Connected,
      Disconnected, Notified, OrderTaken, Routing.Accepts, Routing.NextId, CancelsIn, EngineRuns.Running,
      EngineRuns.Run, EngineRuns.Lawful, EngineRuns.Conserved, EndsWith, FreshOrders;
    assert rs + [] == rs;
    match a
    case Take(attempt) =>
      RunIsRunning(prod, rs);
      TakeStepTells(prod, supported, s, attempt, name, rs);
    case Match(n) => MatchStepTells(prod, s.x, n, name, rs);
    case Report(n) =>
      ExchangeOfFits(s, supported);
      ReportStepTells(prod, s.x, n, name, rs);
    case _ => OtherStepFollows(prod, supported, s, a, name);
  }

  lemma RunIsRunning(prod: bool, rs: seq<EngineRuns.Request>)
    requires EngineRuns.Lawful(prod, rs)
    ensures var single := EngineRuns.Run(prod, rs); EngineRuns.Running(single.log, single.placed)
  {
    EngineRuns.QuantityIsConserved(prod, rs);
  }

  lemma ExchangeOfFits(s: Routing.System, supported: set<string>)
    requires Routing.Inv(s, supported)
    ensures ExchangeFits(s.x)
  {
  }

  /** Over any run of the market: what has been told of the orders of an engine is what that has reported of them. */
  lemma {:induction false} RunTells(prod: bool, supported: set<string>, actions: seq<Routing.Action>, name: string)
    requires Routing.Run(prod, supported, actions).accepted < TWO_TO_THE_32 && name in supported
    ensures ToldOf(prod, Routing.Run(prod, supported, actions).x, name, Requests(prod, supported, actions, name))
  {
    if actions != [] {
      var rest, a := actions[..|actions| - 1], actions[|actions| - 1];
      Routing.CountsGrow(prod, supported, actions);
      RunTells(prod, supported, rest, name);
      RunFollows(prod, supported, rest, name);
      Routing.RunKeeps(prod, supported, rest);
      var s := Routing.Run(prod, supported, rest);
      hide Follows, Routing.Inv, ToldOf;
      assert Requests(prod, supported, rest, name) + [] == Requests(prod, supported, rest, name);
      if Routing.Enabled(s, a) {
        StepTells(prod, supported, s, a, name, Requests(prod, supported, rest, name));
      }
    }
  }

  // ----- What has been told adds up

  function SumDeals(deals: seq<Deal>): nat {
    if deals == [] then 0 else SumDeals(deals[..|deals| - 1]) + deals[|deals| - 1].qty
  }

  lemma SumPush(deals: seq<Deal>, d: Deal)
    ensures SumDeals(deals + [d]) == SumDeals(deals) + d.qty
  {
    assert (deals + [d])[..|deals|] == deals;
  }

  lemma {:induction false} FilledIsSum(log: seq<FillEvent>, id: OrderId)
    ensures EngineRuns.Filled(log, id) == SumDeals(Deals(log, id))
  {
    if log != [] {
      var before, last := log[..|log| - 1], log[|log| - 1];
      FilledIsSum(before, id);
      SumPush(Deals(before, id), Deal(last.qty, last.price, last.snapshot.qtyRemaining));
    }
  }

  lemma {:induction false} DealsSplit(a: seq<FillEvent>, b: seq<FillEvent>, id: OrderId)
    ensures Deals(a + b, id) == Deals(a, id) + Deals(b, id)
    ensures EngineRuns.Filled(a + b, id) == EngineRuns.Filled(a, id) + EngineRuns.Filled(b, id)
  {
    if b == [] {
      assert a + b == a;
    } else {
      var n := |b| - 1;
      DealsSplit(a, b[..n], id);
      assert (a + b)[..|a + b| - 1] == a + b[..n];
    }
  }

  /** Every deal states what is left of the order's quantity after it and the deals before it. */
  ghost predicate Counted(deals: seq<Deal>, qty: nat) {
    forall k :: 0 <= k < |deals| ==> deals[k].left + SumDeals(deals[..k + 1]) == qty
  }

  lemma CountedPush(deals: seq<Deal>, d: Deal, qty: nat)
    requires Counted(deals, qty) && d.left + SumDeals(deals + [d]) == qty
    ensures Counted(deals + [d], qty)
  {
    hide SumDeals;
    var all := deals + [d];
    forall k | 0 <= k < |all|
      ensures all[k].left + SumDeals(all[..k + 1]) == qty
    {
      assert all[..k + 1] == if k < |deals| then deals[..k + 1] else all;
    }
  }

  lemma {:induction false} RunningIsCounted(log: seq<FillEvent>, placed: map<OrderId, Order>, id: OrderId)
    requires EngineRuns.Running(log, placed)
    ensures Deals(log, id) != [] ==> id in placed
    ensures id in placed ==> Counted(Deals(log, id), placed[id].qty)
  {
    if log != [] {
      var before, last := log[..|log| - 1], log[|log| - 1];
      RunningIsCounted(before, placed, id);
      FilledIsSum(log, id);
      assert log == before + [last];
      DealsPush(before, last, id);
      hide SumDeals, EngineRuns.Filled, Counted, Deals, LastFlagged;
      if last.snapshot.orderId == id && last.qty > 0 {
        CountedPush(Deals(before, id), Deal(last.qty, last.price, last.snapshot.qtyRemaining), placed[id].qty);
      }
    }
  }

  lemma {:induction false} FlagsAreLast(log: seq<FillEvent>, id: OrderId)
    requires EngineStatus.Legal(log)
    ensures LastFlagged(log, id) == EngineStatus.LastStatus(log, id)
  {
    if log != [] {
      FlagsAreLast(log[..|log| - 1], id);
    }
  }

  lemma {:induction false} LegalPrefix(log: seq<FillEvent>, n: nat)
    requires EngineStatus.Legal(log) && n <= |log|
    ensures EngineStatus.Legal(log[..n])
  {
    if n < |log| {
      LegalPrefix(log[..|log| - 1], n);
      assert log[..|log| - 1][..n] == log[..n];
    } else {
      assert log[..n] == log;
    }
  }

  lemma SplitLog(log: seq<FillEvent>, waiting: seq<FillEvent>)
    requires EndsWith(log, waiting)
    ensures Reported(log, waiting) + waiting == log
  {
  }

  /** The fills told of an order and those still waiting are all of its engine's, one by one and in order. */
  ghost predicate ToldInOrder(x: ExchangeState, name: string, log: seq<FillEvent>, id: OrderId) {
    name in x.engines && ToldDeals(x.toServer, id) + Deals(x.engines[name].events, id) == Deals(log, id)
  }

  /**
   * Every fill its engine made of an order has been told with its quantity and price, in order, or waits to be; and
   * every fill told states what was left of the order's quantity after all that had been told of it.
   */
  lemma EveryFillIsTold(prod: bool, supported: set<string>, actions: seq<Routing.Action>, name: string, id: OrderId)
    requires Routing.Run(prod, supported, actions).accepted < TWO_TO_THE_32 && name in supported
    requires
      var x := Routing.Run(prod, supported, actions).x;
      id in x.lookup && x.lookup[id] == name
    ensures
      var x := Routing.Run(prod, supported, actions).x;
      var single := EngineRuns.Run(prod, Requests(prod, supported, actions, name));
      && ToldInOrder(x, name, single.log, id)
      && (ToldDeals(x.toServer, id) != [] ==> id in single.placed)
      && (id in single.placed ==> Counted(ToldDeals(x.toServer, id), single.placed[id].qty))
  {
    RunFollows(prod, supported, actions, name);
    EveryEngineConserves(prod, supported, actions, name);
    RunTells(prod, supported, actions, name);
    var rs, x := Requests(prod, supported, actions, name), Routing.Run(prod, supported, actions).x;
    var single, events := EngineRuns.Run(prod, rs), x.engines[name].events;
    hide Routing.Run, Requests, EngineRuns.Run, Follows, EngineRuns.Running, Counted, Deals, ToldDeals, UniqueIds;
    SplitLog(single.log, events);
    var reported := Reported(single.log, events);
    DealsSplit(reported, events, id);
    RunningPrefix(single.log, single.placed, |single.log| - |events|);
    RunningIsCounted(reported, single.placed, id);
    assert Tells(x.toServer, reported, id);
  }

  /** What was told of an order, with what waits to be, is what it traded. */
  lemma ToldSum(x: ExchangeState, name: string, log: seq<FillEvent>, id: OrderId)
    requires ToldInOrder(x, name, log, id)
    ensures
      SumDeals(ToldDeals(x.toServer, id)) + EngineRuns.Filled(x.engines[name].events, id) == EngineRuns.Filled(log, id)
  {
    FilledIsSum(log, id);
    FilledIsSum(x.engines[name].events, id);
    SumSplit(ToldDeals(x.toServer, id), Deals(x.engines[name].events, id));
  }

  lemma {:induction false} SumSplit(a: seq<Deal>, b: seq<Deal>)
    ensures SumDeals(a + b) == SumDeals(a) + SumDeals(b)
  {
    if b == [] {
      assert a + b == a;
    } else {
      SumSplit(a, b[..|b| - 1]);
      assert (a + b)[..|a + b| - 1] == a + b[..|b| - 1];
    }
  }

  /** What has been told of an order, what waits to be told and what it has left are its quantity. */
  lemma NoticesAddUp(prod: bool, supported: set<string>, actions: seq<Routing.Action>, name: string, i: nat)
    requires Routing.Run(prod, supported, actions).accepted < TWO_TO_THE_32 && name in supported
    requires
      var x := Routing.Run(prod, supported, actions).x;
      name in x.engines && i < |x.engines[name].book|
    ensures
      var x := Routing.Run(prod, supported, actions).x;
      var e, o := x.engines[name], x.engines[name].book[i];
      SumDeals(ToldDeals(x.toServer, o.orderId)) + EngineRuns.Filled(e.events, o.orderId) + o.qtyRemaining == o.qty
  {
    var x := Routing.Run(prod, supported, actions).x;
    var o := x.engines[name].book[i];
    RestsWhereLookedUp(prod, supported, actions, name, i);
    EveryFillIsTold(prod, supported, actions, name, o.orderId);
    EveryEngineConserves(prod, supported, actions, name);
    var single := EngineRuns.Run(prod, Requests(prod, supported, actions, name));
    ToldSum(x, name, single.log, o.orderId);
    assert EngineRuns.Balanced(o, single.log, 0);
  }

  lemma RestsWhereLookedUp(prod: bool, supported: set<string>, actions: seq<Routing.Action>, name: string, i: nat)
    requires Routing.Run(prod, supported, actions).accepted < TWO_TO_THE_32
    requires
      var x := Routing.Run(prod, supported, actions).x;
      name in x.engines && i < |x.engines[name].book|
    ensures
      var x := Routing.Run(prod, supported, actions).x;
      var id := x.engines[name].book[i].orderId;
      id in x.lookup && x.lookup[id] == name
  {
    Routing.RunKeeps(prod, supported, actions);
    var s := Routing.Run(prod, supported, actions);
    EngineOfFits(s, supported, name);
    assert s.x.engines[name].book[i].orderId in Ids(s.x.engines[name].book);
  }

  /** A limit order that no longer rests, and was not cancelled, has all been told as traded or waits to be. */
  lemma FilledOrdersAreTold(prod: bool, supported: set<string>, actions: seq<Routing.Action>, name: string, id: OrderId)
    requires Routing.Run(prod, supported, actions).accepted < TWO_TO_THE_32 && name in supported
    requires
      var x := Routing.Run(prod, supported, actions).x;
      var rs := Requests(prod, supported, actions, name);
      var placed := EngineRuns.Run(prod, rs).placed;
      && id in x.lookup && x.lookup[id] == name && id in placed && placed[id].priceType.LIMIT?
      && (name in x.engines ==> !Resting(x.engines[name].book, id)) && id !in RestLaws.Cancelled(prod, rs)
    ensures
      var x := Routing.Run(prod, supported, actions).x;
      var placed := EngineRuns.Run(prod, Requests(prod, supported, actions, name)).placed;
      && name in x.engines
      && SumDeals(ToldDeals(x.toServer, id)) + EngineRuns.Filled(x.engines[name].events, id) == placed[id].qty
  {
    var rs := Requests(prod, supported, actions, name);
    var x, single := Routing.Run(prod, supported, actions).x, EngineRuns.Run(prod, rs);
    RunFollows(prod, supported, actions, name);
    RestLaws.EveryLimitOrderIsAccounted(prod, rs);
    EveryFillIsTold(prod, supported, actions, name, id);
    ToldSum(x, name, single.log, id);
    assert RestLaws.Accounted(single.book, single.log, single.placed, RestLaws.Cancelled(prod, rs), id);
  }

  /**
   * If every order for nothing missed, the status last told of an order is the last one its engine has reported; and
   * once nothing waits to be told of it, that is the status it rests with.
   */
  lemma LastStatusIsTold(prod: bool, supported: set<string>, actions: seq<Routing.Action>, name: string, id: OrderId)
    requires Routing.Run(prod, supported, actions).accepted < TWO_TO_THE_32 && name in supported
    requires EngineStatus.EmptyOrdersMiss(prod, Requests(prod, supported, actions, name))
    requires
      var x := Routing.Run(prod, supported, actions).x;
      id in x.lookup && x.lookup[id] == name
    ensures
      var x := Routing.Run(prod, supported, actions).x;
      var single := EngineRuns.Run(prod, Requests(prod, supported, actions, name));
      && name in x.engines && |x.engines[name].events| <= |single.log|
      && var e := x.engines[name];
      && ToldStatus(x.toServer, id) == Some(EngineStatus.LastStatus(Reported(single.log, e.events), id))
      && (id !in EventIds(e.events) ==>
            forall i :: 0 <= i < |e.book| && e.book[i].orderId == id ==>
              ToldStatus(x.toServer, id) == Some(e.book[i].status))
  {
    RunFollows(prod, supported, actions, name);
    EveryHistoryIsLegal(prod, supported, actions, name);
    RunTells(prod, supported, actions, name);
    var rs, x := Requests(prod, supported, actions, name), Routing.Run(prod, supported, actions).x;
    var single, e := EngineRuns.Run(prod, rs), x.engines[name];
    hide Routing.Run, Requests, EngineRuns.Run, Follows, ToldStatus, EngineStatus.Legal, EngineStatus.LastStatus;
    var reported := Reported(single.log, e.events);
    SplitLog(single.log, e.events);
    LegalPrefix(single.log, |reported|);
    FlagsAreLast(reported, id);
    assert Tells(x.toServer, reported, id);
    if id !in EventIds(e.events) {
      NothingAnnounced(reported, e.events, id);
    }
  }

  lemma {:induction false} NothingAnnounced(log: seq<FillEvent>, events: seq<FillEvent>, id: OrderId)
    requires id !in EventIds(events)
    ensures EngineStatus.LastStatus(log + events, id) == EngineStatus.LastStatus(log, id)
  {
    if events == [] {
      assert log + events == log;
    } else {
      var n := |events| - 1;
      assert events[n].snapshot.orderId in EventIds(events);
      assert forall k :: 0 <= k < n ==> events[k].snapshot.orderId in EventIds(events);
      assert id !in EventIds(events[..n]);
      NothingAnnounced(log, events[..n], id);
      assert (log + events)[..|log + events| - 1] == log + events[..n];
    }
  }
}
