/**
 * Every engine of the running market does what the laws of a single engine are about: its book and its
 * events are those of the requests that reached it, in the order in which they did.
 */
module Markets {
  import opened Options
  import opened TradingTypes
  import opened Ticks
  import opened PriceTime
  import opened OrderIds
  import opened ExchangeServers
  import opened Exchanges
  import EngineRuns
  import EngineStatus
  import Routing

  /** What an accepted request becomes: an order with a level, all of its quantity left, and its sender's session. */
  lemma AcceptedBecomesOrder(isOpen: bool, supported: set<string>, r: OrderRequest, id: OrderId)
    requires Acceptable(isOpen, supported, r)
    ensures
      var o := CreateOrder(r.(orderId := id));
      && o.Some?
      && o.value.orderId == id && o.value.sessionId == SessionOf(id)
      && (o.value.side.BUY? <==> r.sideCode % BYTE == 0)
      && o.value.qty == o.value.qtyRemaining == r.qty && o.value.status == Accepted
      && (o.value.priceType.LIMIT? <==> IsLimit(r))
      && (o.value.priceType.LIMIT? ==> o.value.price == r.price && 1 <= Level(o.value) < NUM_LEVELS)
  {
    if IsLimit(r) {
      ValidPricesHaveLevels(r.price);
    }
  }

  /** The cancel that the exchange is about to take, if it goes to the named engine. */
  predicate CancelsIn(s: Routing.System, name: string) {
    s.g.toExchange != [] && s.g.toExchange[0].CancelOrder? &&
    var id := GenerateOrderId(s.g.toExchange[0].session, s.g.toExchange[0].orderNum);
    id in s.x.lookup && s.x.lookup[id] == name && name in s.x.engines
  }

  /** What a step asks of the named engine. */
  function Asked(s: Routing.System, a: Routing.Action, name: string): seq<EngineRuns.Request>
    requires Routing.Enabled(s, a)
  {
    match a
    case Match(n) => if n == name then [EngineRuns.Place(s.x.engines[name].pending[0])] else []
    case Take(_) =>
      if CancelsIn(s, name)
      then [EngineRuns.Cancel(GenerateOrderId(s.g.toExchange[0].session, s.g.toExchange[0].orderNum))] else []
    case _ => []
  }

  /** All the requests that reached the named engine in a run, in order. */
  function Requests(prod: bool, supported: set<string>, actions: seq<Routing.Action>,
                    name: string): seq<EngineRuns.Request> {
    if actions == [] then []
    else
      var rest, a := actions[..|actions| - 1], actions[|actions| - 1];
      var s := Routing.Run(prod, supported, rest);
      Requests(prod, supported, rest, name) + (if Routing.Enabled(s, a) then Asked(s, a, name) else [])
  }

  predicate EndsWith(log: seq<FillEvent>, events: seq<FillEvent>) {
    |events| <= |log| && log[|log| - |events|..] == events
  }

  predicate FreshOrders(orders: seq<Order>) {
    forall i :: 0 <= i < |orders| ==> orders[i].qtyRemaining == orders[i].qty && orders[i].status == Accepted
  }

  /** The engine is where these requests take a single engine; its waiting orders were never placed. */
  ghost predicate Follows(prod: bool, e: Engine, lookup: map<OrderId, string>, rs: seq<EngineRuns.Request>) {
    var single := EngineRuns.Run(prod, rs);
    && EngineRuns.Lawful(prod, rs)
    && e.book == single.book && EndsWith(single.log, e.events)
    && single.placed.Keys <= lookup.Keys && single.placed.Keys !! Ids(e.pending)
    && FreshOrders(e.pending)
  }

  lemma OneMore(prod: bool, rs: seq<EngineRuns.Request>, r: EngineRuns.Request)
    ensures EngineRuns.Run(prod, rs + [r]) == EngineRuns.Step(prod, EngineRuns.Run(prod, rs), r)
    ensures EngineRuns.Lawful(prod, rs + [r]) <==>
      && EngineRuns.Lawful(prod, rs)
      && (r.Place? ==> r.order.orderId !in EngineRuns.Run(prod, rs).placed &&
                       r.order.qtyRemaining == r.order.qty && r.order.status == Accepted)
  {
    assert (rs + [r])[..|rs|] == rs;
  }

  lemma EndsWithMore(log: seq<FillEvent>, events: seq<FillEvent>, more: seq<FillEvent>)
    requires EndsWith(log, events)
    ensures EndsWith(log + more, events + more)
  {
    assert (log + more)[|log| - |events|..] == log[|log| - |events|..] + more;
  }

  lemma FreshTail(orders: seq<Order>)
    requires FreshOrders(orders) && orders != []
    ensures FreshOrders(orders[1..]) && orders[0].qtyRemaining == orders[0].qty && orders[0].status == Accepted
  {
  }

  /** The order taken from the queue was never placed, and the others in the queue are not it. */
  lemma FirstIsNew(e: Engine, name: string, lookup: map<OrderId, string>, placed: map<OrderId, Order>)
    requires EngineFits(e, name, lookup) && e.pending != []
    requires placed.Keys <= lookup.Keys && placed.Keys !! Ids(e.pending)
    ensures
      var o := e.pending[0];
      var placed' := placed[o.orderId := o];
      && o.orderId !in placed && placed'.Keys <= lookup.Keys && placed'.Keys !! Ids(e.pending[1..])
  {
    FirstPending(e.pending);
    assert e.pending[0].orderId in Ids(e.pending);
    hide Ids, UniqueIds, SessionsFit, EventIds;
  }

  lemma PlaceFollows(prod: bool, e: Engine, name: string, lookup: map<OrderId, string>, rs: seq<EngineRuns.Request>)
    requires Follows(prod, e, lookup, rs) && EngineFits(e, name, lookup) && e.pending != []
    ensures
      var r := Submit(prod, e.book, e.pending[0]);
      Follows(prod, Engine(e.pending[1..], r.book, e.events + r.events), lookup, rs + [EngineRuns.Place(e.pending[0])])
  {
    var o := e.pending[0];
    hide Submit, EngineRuns.Lawful, EngineRuns.Run, EndsWith, FreshOrders, Ids, EngineFits;
    OneMore(prod, rs, EngineRuns.Place(o));
    FreshTail(e.pending);
    FirstIsNew(e, name, lookup, EngineRuns.Run(prod, rs).placed);
    EndsWithMore(EngineRuns.Run(prod, rs).log, e.events, Submit(prod, e.book, o).events);
  }

  lemma CancelFollows(prod: bool, e: Engine, lookup: map<OrderId, string>, rs: seq<EngineRuns.Request>, id: OrderId)
    requires Follows(prod, e, lookup, rs)
    ensures Follows(prod, e.(book := Without(e.book, id)), lookup, rs + [EngineRuns.Cancel(id)])
  {
    OneMore(prod, rs, EngineRuns.Cancel(id));
  }

  lemma ReportFollows(prod: bool, e: Engine, lookup: map<OrderId, string>, rs: seq<EngineRuns.Request>)
    requires Follows(prod, e, lookup, rs) && e.events != []
    ensures Follows(prod, e.(events := e.events[1..]), lookup, rs)
  {
    hide EngineRuns.Lawful, EngineRuns.Run;
    var log := EngineRuns.Run(prod, rs).log;
    assert log[|log| - |e.events|..][1..] == log[|log| - (|e.events| - 1)..];
  }

  /** A new order waits: it is not among the placed ones, since the lookup map did not know it. */
  lemma TakeFollows(prod: bool, x: ExchangeState, r: OrderRequest, attempt: Attempt, name: string,
                    rs: seq<EngineRuns.Request>)
    requires name in x.engines && Follows(prod, x.engines[name], x.lookup, rs)
    requires r.orderId !in x.lookup && OrderTaken(x, r, attempt).Some?
    ensures
      var x' := OrderTaken(x, r, attempt).value;
      name in x'.engines && Follows(prod, x'.engines[name], x'.lookup, rs)
  {
    var o := CreateOrder(r);
    hide EngineRuns.Lawful, EngineRuns.Run, EndsWith;
    if o.Some? && r.instrument == name && attempt.Queued? {
      PendingIds(x.engines[name].pending, o.value);
    }
  }

  lemma PendingIds(pending: seq<Order>, o: Order)
    ensures Ids(pending + [o]) == Ids(pending) + {o.orderId}
  {
    var all := pending + [o];
    assert all[|pending|] == o;
    forall id | id in Ids(pending)
      ensures id in Ids(all)
    {
      var i :| 0 <= i < |pending| && pending[i].orderId == id;
      assert all[i].orderId == id;
    }
  }

  lemma TakeStepFollows(prod: bool, supported: set<string>, s: Routing.System, attempt: Attempt, name: string,
                        rs: seq<EngineRuns.Request>)
    requires Routing.Inv(s, supported) && Routing.Enabled(s, Routing.Take(attempt))
    requires name in s.x.engines && Follows(prod, s.x.engines[name], s.x.lookup, rs)
    ensures
      var s' := Routing.Do(s, prod, supported, Routing.Take(attempt));
      && name in s'.x.engines
      && Follows(prod, s'.x.engines[name], s'.x.lookup, rs + Asked(s, Routing.Take(attempt), name))
  {
    hide Follows, ExchangeFits, OneToOne, Without, Resting, GenerateOrderId;
    var msg := s.g.toExchange[0];
    assert Routing.MessageFits(s, msg);
    assert rs + [] == rs;
    if msg.NewOrder? {
      TakeFollows(prod, s.x, msg.order, attempt, name, rs);
    } else {
      CancelFollows(prod, s.x.engines[name], s.x.lookup, rs, GenerateOrderId(msg.session, msg.orderNum));
    }
  }

  lemma StepFollows(prod: bool, supported: set<string>, s: Routing.System, a: Routing.Action, name: string,
                    rs: seq<EngineRuns.Request>)
    requires Routing.Inv(s, supported) && Routing.Enabled(s, a)
    requires name in s.x.engines && Follows(prod, s.x.engines[name], s.x.lookup, rs)
    ensures
      var s' := Routing.Do(s, prod, supported, a);
      && name in s'.x.engines
      && Follows(prod, s'.x.engines[name], s'.x.lookup, rs + Asked(s, a, name))
  {
    hide Follows, Routing.Inv, EngineFits, Routing.Taken, OrderMatched, FillReported, Handled, Connected,
      Disconnected, Notified, OrderTaken, Routing.Accepts, Routing.NextId, CancelsIn;
    assert rs + [] == rs;
    match a
    case Take(attempt) => TakeStepFollows(prod, supported, s, attempt, name, rs);
    case Match(n) =>
      EngineOfFits(s, supported, name);
      MatchStepFollows(prod, s.x, n, name, rs);
    case Report(n) => ReportStepFollows(prod, s.x, n, name, rs);
    case _ => OtherStepFollows(prod, supported, s, a, name);
  }

  /** Nothing else reaches an engine. */
  lemma OtherStepFollows(prod: bool, supported: set<string>, s: Routing.System, a: Routing.Action, name: string)
    requires Routing.Enabled(s, a) && !a.Take? && !a.Match? && !a.Report?
    ensures Routing.Do(s, prod, supported, a).x == s.x && Asked(s, a, name) == []
  {
    hide Handled, Connected, Disconnected, Notified, Routing.Accepts, Routing.NextId;
  }

  lemma EngineOfFits(s: Routing.System, supported: set<string>, name: string)
    requires Routing.Inv(s, supported) && name in s.x.engines
    ensures EngineFits(s.x.engines[name], name, s.x.lookup)
  {
    hide EngineFits, OneToOne;
  }

  lemma MatchStepFollows(prod: bool, x: ExchangeState, n: string, name: string, rs: seq<EngineRuns.Request>)
    requires n in x.engines && x.engines[n].pending != [] && name in x.engines
    requires Follows(prod, x.engines[name], x.lookup, rs) && EngineFits(x.engines[name], name, x.lookup)
    ensures
      var x' := OrderMatched(prod, x, n);
      var rs' := if n == name then rs + [EngineRuns.Place(x.engines[name].pending[0])] else rs;
      name in x'.engines && Follows(prod, x'.engines[name], x'.lookup, rs')
  {
    hide Follows, EngineFits, Submit;
    if n == name {
      PlaceFollows(prod, x.engines[name], name, x.lookup, rs);
    }
  }

  lemma ReportStepFollows(prod: bool, x: ExchangeState, n: string, name: string, rs: seq<EngineRuns.Request>)
    requires n in x.engines && x.engines[n].events != [] && name in x.engines
    requires Follows(prod, x.engines[name], x.lookup, rs)
    ensures
      var x' := FillReported(x, n);
      name in x'.engines && Follows(prod, x'.engines[name], x'.lookup, rs)
  {
    hide Follows;
    if n == name {
      ReportFollows(prod, x.engines[name], x.lookup, rs);
    }
  }

  lemma {:induction false} RunFollows(prod: bool, supported: set<string>, actions: seq<Routing.Action>, name: string)
    requires Routing.Run(prod, supported, actions).accepted < TWO_TO_THE_32 && name in supported
    ensures
      var x := Routing.Run(prod, supported, actions).x;
      name in x.engines && Follows(prod, x.engines[name], x.lookup, Requests(prod, supported, actions, name))
  {
    if actions != [] {
      var rest, a := actions[..|actions| - 1], actions[|actions| - 1];
      Routing.CountsGrow(prod, supported, actions);
      RunFollows(prod, supported, rest, name);
      Routing.RunKeeps(prod, supported, rest);
      var s := Routing.Run(prod, supported, rest);
      hide Follows, Routing.Inv;
      assert Requests(prod, supported, rest, name) + [] == Requests(prod, supported, rest, name);
      if Routing.Enabled(s, a) {
        StepFollows(prod, supported, s, a, name, Requests(prod, supported, rest, name));
      }
    }
  }

  /** In every reachable state of the market no book is crossed, self-trade prevention apart. */
  lemma NoBookIsCrossed(prod: bool, supported: set<string>, actions: seq<Routing.Action>, name: string)
    requires Routing.Run(prod, supported, actions).accepted < TWO_TO_THE_32 && name in supported
    ensures
      var x := Routing.Run(prod, supported, actions).x;
      name in x.engines && EngineStatus.NotCrossed(prod, x.engines[name].book)
  {
    RunFollows(prod, supported, actions, name);
    EngineStatus.NeverCrossed(prod, Requests(prod, supported, actions, name));
  }

  /**
   * And quantity is conserved at every engine: of the orders that reached it, over the events it sent, of
   * which those not yet reported are the last.
   */
  lemma EveryEngineConserves(prod: bool, supported: set<string>, actions: seq<Routing.Action>, name: string)
    requires Routing.Run(prod, supported, actions).accepted < TWO_TO_THE_32 && name in supported
    ensures
      var x := Routing.Run(prod, supported, actions).x;
      var single := EngineRuns.Run(prod, Requests(prod, supported, actions, name));
      && name in x.engines && EndsWith(single.log, x.engines[name].events)
      && EngineRuns.Conserved(x.engines[name].book, single.log, single.placed)
  {
    RunFollows(prod, supported, actions, name);
    EngineRuns.QuantityIsConserved(prod, Requests(prod, supported, actions, name));
  }

  /** The status histories at every engine are legal, at every moment, if and only if every order for nothing missed. */
  lemma EveryHistoryIsLegal(prod: bool, supported: set<string>, actions: seq<Routing.Action>, name: string)
    requires Routing.Run(prod, supported, actions).accepted < TWO_TO_THE_32 && name in supported
    ensures
      var x := Routing.Run(prod, supported, actions).x;
      var rs := Requests(prod, supported, actions, name);
      && name in x.engines
      && (EngineStatus.LegalRun(prod, rs) <==> EngineStatus.EmptyOrdersMiss(prod, rs))
      && (EngineStatus.EmptyOrdersMiss(prod, rs) ==>
            EngineStatus.Statuses(x.engines[name].book, EngineRuns.Run(prod, rs).log))
  {
    RunFollows(prod, supported, actions, name);
    EngineStatus.HistoriesAreLegal(prod, Requests(prod, supported, actions, name));
  }
}
