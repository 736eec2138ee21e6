/**
 * First come, first matched: what brokers send reaches the exchange in the order in which the gateway took it in, and
 * the orders among it reach each engine in that order too.
 */
module MarketIntake {
  import opened Options
  import opened TradingTypes
  import opened PriceTime
  import opened OrderIds
  import opened ExchangeServers
  import opened Exchanges
  import opened Markets
  import EngineRuns
  import Routing

  // ----- From the gateway to the exchange

  /** What the gateway forwards when there is room: cancels of anyone with a session, and orders it accepts. */
  function Sent(s: Routing.System, supported: set<string>, a: Routing.Action): seq<ExchangeMsg> {
    if !a.Message? || !a.room || a.fd !in s.g.right then []
    else
      match a.request
      case Other => []
      case Cancel(num) => [CancelOrder(s.g.right[a.fd], num)]
      case Place(order) =>
        if Acceptable(a.isOpen, supported, order) then [NewOrder(order.(orderId := Routing.NextId(s, a.fd)))] else []
  }

  /** All of it in a run, in the order in which it was sent. */
  function AllSent(prod: bool, supported: set<string>, actions: seq<Routing.Action>): seq<ExchangeMsg> {
    if actions == [] then []
    else
      var rest, a := actions[..|actions| - 1], actions[|actions| - 1];
      AllSent(prod, supported, rest) + Sent(Routing.Run(prod, supported, rest), supported, a)
  }

  /** What the exchange has dequeued of it. */
  function AllTaken(prod: bool, supported: set<string>, actions: seq<Routing.Action>): seq<ExchangeMsg> {
    if actions == [] then []
    else
      var rest, a := actions[..|actions| - 1], actions[|actions| - 1];
      var s := Routing.Run(prod, supported, rest);
      AllTaken(prod, supported, rest) + (if a.Take? && Routing.Enabled(s, a) then [s.g.toExchange[0]] else [])
  }

  lemma MessageForwards(s: Routing.System, prod: bool, supported: set<string>, a: Routing.Action)
    requires a.Message?
    ensures !(a.Take? && Routing.Enabled(s, a))
    ensures Routing.Next(s, prod, supported, a).g.toExchange == s.g.toExchange + Sent(s, supported, a)
  {
    hide Acceptable, ValidateOrderData, GenerateOrderId, NextOrderNum;
  }

  lemma OthersForwardNothing(s: Routing.System, prod: bool, supported: set<string>, a: Routing.Action)
    requires !a.Message?
    ensures Sent(s, supported, a) == []
    ensures
      var queue, queue' := s.g.toExchange, Routing.Next(s, prod, supported, a).g.toExchange;
      queue == (if a.Take? && Routing.Enabled(s, a) then [queue[0]] else []) + queue'
  {
    hide Routing.Taken, OrderMatched, FillReported, OrderTaken;
  }

  lemma Regroup<T>(a: seq<T>, b: seq<T>, c: seq<T>)
    ensures (a + b) + c == a + (b + c)
  {
  }

  /** At every moment of every run: what was dequeued, and then what waits, is what was sent, once each and in order. */
  lemma {:induction false} MessagesInOrder(prod: bool, supported: set<string>, actions: seq<Routing.Action>)
    ensures
      AllSent(prod, supported, actions) ==
        AllTaken(prod, supported, actions) + Routing.Run(prod, supported, actions).g.toExchange
  {
    if actions != [] {
      var rest, a := actions[..|actions| - 1], actions[|actions| - 1];
      MessagesInOrder(prod, supported, rest);
      var s := Routing.Run(prod, supported, rest);
      assert Routing.Run(prod, supported, actions) == Routing.Next(s, prod, supported, a);
      hide Routing.Run, Routing.Next, Routing.Enabled, Sent;
      var sent, taken, queue := AllSent(prod, supported, rest), AllTaken(prod, supported, rest), s.g.toExchange;
      var queue' := Routing.Run(prod, supported, actions).g.toExchange;
      if a.Message? {
        MessageForwards(s, prod, supported, a);
        Regroup(taken, queue, Sent(s, supported, a));
        assert taken + [] == taken;
      } else {
        OthersForwardNothing(s, prod, supported, a);
        Regroup(taken, if a.Take? && Routing.Enabled(s, a) then [queue[0]] else [], queue');
        assert sent + [] == sent;
      }
    }
  }

  // ----- From the exchange to an engine

  /** The order that an action gives to an engine: that of a request for its instrument, unless the queue refuses it. */
  function Given(s: Routing.System, a: Routing.Action, name: string): seq<Order> {
    if !a.Take? || a.attempt != Queued || !Routing.Enabled(s, a) then []
    else
      match s.g.toExchange[0]
      case CancelOrder(_, _) => []
      case NewOrder(r) =>
        if r.instrument == name && CreateOrder(r).Some? then [CreateOrder(r).value] else []
  }

  function AllGiven(prod: bool, supported: set<string>, actions: seq<Routing.Action>, name: string): seq<Order> {
    if actions == [] then []
    else
      var rest, a := actions[..|actions| - 1], actions[|actions| - 1];
      AllGiven(prod, supported, rest, name) + Given(Routing.Run(prod, supported, rest), a, name)
  }

  /** The orders among an engine's requests. */
  function Placed(rs: seq<EngineRuns.Request>): seq<Order> {
    if rs == [] then []
    else
      var last := rs[|rs| - 1];
      Placed(rs[..|rs| - 1]) + if last.Place? then [last.order] else []
  }

  lemma PlacedMore(rs: seq<EngineRuns.Request>, more: seq<EngineRuns.Request>)
    requires |more| <= 1
    ensures
      Placed(rs + more) == Placed(rs) + if more != [] && more[0].Place? then [more[0].order] else []
  {
    if more == [] {
      assert rs + more == rs;
    } else {
      assert (rs + more)[..|rs|] == rs;
    }
  }

  /** An action hands the first waiting order to the matching, or makes one wait last, or leaves them alone. */
  lemma StepGives(s: Routing.System, prod: bool, supported: set<string>, a: Routing.Action, name: string)
    requires name in s.x.engines && Routing.Enabled(s, a)
    ensures |Asked(s, a, name)| <= 1
    ensures
      var x', asked := Routing.Do(s, prod, supported, a).x, Asked(s, a, name);
      && name in x'.engines
      && s.x.engines[name].pending + Given(s, a, name) ==
           (if asked != [] && asked[0].Place? then [asked[0].order] else []) + x'.engines[name].pending
  {
    hide Submit, Handled, Connected, Disconnected, Notified, GenerateOrderId, CreateOrder, Reports, Resting, Without;
  }

  /**
   * The orders that were matched at an engine, and then those that wait there, are those it was given, once each and in
   * the order in which the exchange dequeued them.
   */
  lemma {:induction false} OrdersInTurn(prod: bool, supported: set<string>, actions: seq<Routing.Action>, name: string)
    requires name in supported
    ensures
      var x := Routing.Run(prod, supported, actions).x;
      && name in x.engines
      && Placed(Requests(prod, supported, actions, name)) + x.engines[name].pending ==
           AllGiven(prod, supported, actions, name)
  {
    if actions != [] {
      var rest, a := actions[..|actions| - 1], actions[|actions| - 1];
      OrdersInTurn(prod, supported, rest, name);
      var s := Routing.Run(prod, supported, rest);
      assert Routing.Run(prod, supported, actions) == Routing.Next(s, prod, supported, a);
      hide Routing.Run, Routing.Do, Asked, Given, Placed, Routing.Enabled;
      var rs, pending := Requests(prod, supported, rest, name), s.x.engines[name].pending;
      if Routing.Enabled(s, a) {
        var asked := Asked(s, a, name);
        StepGives(s, prod, supported, a, name);
        PlacedMore(rs, asked);
        Regroup(Placed(rs), if asked != [] && asked[0].Place? then [asked[0].order] else [],
                Routing.Do(s, prod, supported, a).x.engines[name].pending);
        Regroup(Placed(rs), pending, Given(s, a, name));
      } else {
        PlacedMore(rs, []);
        NothingGiven(s, a, name);
        assert Placed(rs) + pending + [] == Placed(rs) + pending && Placed(rs) + [] == Placed(rs);
      }
    }
  }

  lemma NothingGiven(s: Routing.System, a: Routing.Action, name: string)
    requires !Routing.Enabled(s, a)
    ensures Given(s, a, name) == []
  {
  }
}
