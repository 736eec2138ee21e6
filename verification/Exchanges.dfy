/**
 * The exchange process: one matching engine per instrument, and the map that says which engine knows an
 * order.  Each engine is kept by its specification: the flat book, and what waits before and behind it.
 */
module Exchanges {
  import opened Options
  import opened TradingTypes
  import opened Ticks
  import opened PriceTime
  import opened OrderIds
  import opened ExchangeServers

  /** Orders not yet matched, the book, and events not yet reported. */
  datatype Engine = Engine(pending: seq<Order>, book: seq<Order>, events: seq<FillEvent>)

  /** Messages for the gateway. */
  datatype Notice =
    | StatusUpdate(orderId: OrderId, status: OrderStatus)
    | Fills(orderId: OrderId, qty: nat, price: Price, qtyRemaining: nat)
    | CancelResponse(orderId: OrderId, success: bool)

  datatype ExchangeState = ExchangeState(
    engines: map<string, Engine>,
    lookup: map<OrderId, string>,
    toServer: seq<Notice>)

  // ----- Orders coming in

  /** A side that is not a buy counts as a sell; a price type that is neither limit nor market makes no order. */
  function CreateOrder(r: OrderRequest): Option<Order> {
    var side := if r.sideCode % BYTE == 0 then BUY else SELL;
    if r.priceCode % BYTE == LIMIT_CODE then
      Some(Order(r.orderId, SessionOf(r.orderId), side, LIMIT, r.price, r.qty, r.qty, Accepted))
    else if r.priceCode % BYTE == MARKET_CODE then
      Some(Order(r.orderId, SessionOf(r.orderId), side, MARKET, 0.0, r.qty, r.qty, Accepted))
    else None
  }

  function Told(x: ExchangeState, notice: Notice): ExchangeState {
    x.(toServer := x.toServer + [notice])
  }

  /** What an engine's queue does with an order.  A refusal is complained about if logging is on. */
  datatype Attempt = Queued | Refused(logging: bool)

  /** The order waits in its engine's queue, if that took it, and the lookup map learns of it. */
  function GivenToEngine(x: ExchangeState, name: string, o: Order, attempt: Attempt): ExchangeState
    requires name in x.engines
  {
    var e := x.engines[name];
    x.(engines := if attempt.Queued? then x.engines[name := e.(pending := e.pending + [o])] else x.engines,
       lookup := x.lookup[o.orderId := name])
  }

  /** The complaint about a refusal reads the order, which the queue's call has already taken away. */
  predicate Ends(x: ExchangeState, name: string, attempt: Attempt) {
    name !in x.engines || attempt == Refused(true)
  }

  /** None is the end of the exchange. */
  function OrderTaken(x: ExchangeState, r: OrderRequest, attempt: Attempt): Option<ExchangeState> {
    match CreateOrder(r)
    case None => Some(x)
    case Some(o) =>
      if Ends(x, r.instrument, attempt) then None
      else Some(GivenToEngine(Told(x, StatusUpdate(o.orderId, Accepted)), r.instrument, o, attempt))
  }

  // ----- Cancels coming in

  function CancelTaken(x: ExchangeState, session: SessionId, orderNum: nat): ExchangeState {
    var id := GenerateOrderId(session, orderNum);
    if id !in x.lookup || x.lookup[id] !in x.engines then x
    else
      var name := x.lookup[id];
      var e := x.engines[name];
      x.(engines := x.engines[name := e.(book := Without(e.book, id))],
         toServer := x.toServer + [CancelResponse(id, Resting(e.book, id))])
  }

  // ----- The engines' own threads

  function OrderMatched(prod: bool, x: ExchangeState, name: string): ExchangeState
    requires name in x.engines && x.engines[name].pending != []
  {
    var e := x.engines[name];
    var r := Submit(prod, e.book, e.pending[0]);
    x.(engines := x.engines[name := Engine(e.pending[1..], r.book, e.events + r.events)])
  }

  /** A fill is reported if something was traded, a status if it is flagged as changed. */
  function Reports(e: FillEvent): seq<Notice> {
    (if e.qty > 0 then [Fills(e.snapshot.orderId, e.qty, e.price, e.snapshot.qtyRemaining)] else []) +
    (if e.statusChanged then [StatusUpdate(e.snapshot.orderId, e.snapshot.status)] else [])
  }

  function FillReported(x: ExchangeState, name: string): ExchangeState
    requires name in x.engines && x.engines[name].events != []
  {
    var e := x.engines[name];
    x.(engines := x.engines[name := e.(events := e.events[1..])], toServer := x.toServer + Reports(e.events[0]))
  }

  // ----- An order is in at most one engine, and the lookup map says in which

  function Ids(orders: seq<Order>): set<OrderId> {
    set i | 0 <= i < |orders| :: orders[i].orderId
  }

  ghost predicate SessionsFit(orders: seq<Order>) {
    forall i :: 0 <= i < |orders| ==> orders[i].sessionId == SessionOf(orders[i].orderId)
  }

  function EventIds(events: seq<FillEvent>): set<OrderId> {
    set i | 0 <= i < |events| :: events[i].snapshot.orderId
  }

  ghost predicate EngineFits(e: Engine, name: string, lookup: map<OrderId, string>) {
    && UniqueIds(e.book) && UniqueIds(e.pending) && Ids(e.book) !! Ids(e.pending)
    && SessionsFit(e.book) && SessionsFit(e.pending)
    && (forall id :: id in Ids(e.book) || id in Ids(e.pending) ==> id in lookup && lookup[id] == name)
    && (forall id :: id in EventIds(e.events) ==> id in lookup && lookup[id] == name)
  }

  ghost predicate EnginesFit(x: ExchangeState) {
    && (forall name :: name in x.engines ==> EngineFits(x.engines[name], name, x.lookup))
    && (forall id :: id in x.lookup ==> x.lookup[id] in x.engines)
  }

  ghost predicate ExchangeFits(x: ExchangeState) {
    && EnginesFit(x)
    && (forall i :: 0 <= i < |x.toServer| ==> x.toServer[i].orderId in x.lookup)
  }

  predicate RestsIn(x: ExchangeState, name: string, id: OrderId) {
    name in x.engines && Resting(x.engines[name].book, id)
  }

  lemma RestingIsInIds(book: seq<Order>, id: OrderId)
    ensures Resting(book, id) <==> id in Ids(book)
  {
  }

  /** An order rests in no engine but the one the lookup map names. */
  lemma RestsOnlyWhereLookedUp(x: ExchangeState, name: string, id: OrderId)
    requires ExchangeFits(x) && RestsIn(x, name, id)
    ensures id in x.lookup && x.lookup[id] == name
  {
    RestingIsInIds(x.engines[name].book, id);
    assert EngineFits(x.engines[name], name, x.lookup);
  }

  lemma WithoutIds(book: seq<Order>, id: OrderId)
    requires UniqueIds(book)
    ensures Ids(Without(book, id)) == Ids(book) - {id}
    ensures UniqueIds(Without(book, id))
    ensures SessionsFit(book) ==> SessionsFit(Without(book, id))
  {
    if p :| 0 <= p < |book| && book[p].orderId == id {
      WithoutAt(book, p);
      var rest := book[..p] + book[p + 1..];
      assert forall i :: 0 <= i < |rest| ==> rest[i] == book[if i < p then i else i + 1];
      forall k | k in Ids(book) - {id}
        ensures k in Ids(rest)
      {
        var i :| 0 <= i < |book| && book[i].orderId == k;
        assert rest[if i < p then i else i - 1].orderId == k;
      }
    } else {
      WithoutAbsent(book, id);
    }
  }

  // ----- What matching does to ids

  lemma AfterTradeIds(book: seq<Order>, p: nat, q: nat)
    requires p < |book| && q <= book[p].qtyRemaining && UniqueIds(book)
    ensures |AfterTrade(book, p, q)| == |book| - (if q == book[p].qtyRemaining then 1 else 0)
    ensures Ids(AfterTrade(book, p, q)) <= Ids(book) && UniqueIds(AfterTrade(book, p, q))
    ensures SessionsFit(book) ==> SessionsFit(AfterTrade(book, p, q))
  {
    var book' := AfterTrade(book, p, q);
    forall i | 0 <= i < |book'|
      ensures var j := if |book'| == |book| || i < p then i else i + 1;
        book'[i].orderId == book[j].orderId && book'[i].sessionId == book[j].sessionId
    {
    }
  }

  function RestingTraded(trades: seq<Trade>): set<OrderId> {
    set i | 0 <= i < |trades| :: trades[i].resting.orderId
  }

  predicate SameAggressor(trades: seq<Trade>, id: OrderId) {
    forall i :: 0 <= i < |trades| ==> trades[i].Valid() && trades[i].aggr.orderId == id
  }

  lemma {:induction false} MatchIds(prod: bool, book: seq<Order>, aggr: Order)
    requires UniqueIds(book)
    ensures
      var m := Match(prod, book, aggr);
      && UniqueIds(m.book) && Ids(m.book) <= Ids(book) && (SessionsFit(book) ==> SessionsFit(m.book))
      && RestingTraded(m.trades) <= Ids(book) && SameAggressor(m.trades, aggr.orderId)
    decreases |book|
  {
    hide Match, UniqueIds, SessionsFit, AfterTrade;
    var best := Best(prod, book, aggr);
    if best.None? {
      NoMatch(prod, book, aggr);
    } else {
      var p := best.value;
      var q := TradeQty(book, aggr, p);
      var book', aggr' := AfterTrade(book, p, q), Fill(aggr, q);
      MatchStep(prod, book, aggr, p);
      AfterTradeIds(book, p, q);
      assert book[p].orderId in Ids(book);
      if aggr'.qtyRemaining != 0 {
        MatchIds(prod, book', aggr');
        MoreTraded(Trade(book[p], q, aggr'), Match(prod, book', aggr').trades);
      }
    }
  }

  lemma NoMatch(prod: bool, book: seq<Order>, aggr: Order)
    requires Best(prod, book, aggr).None?
    ensures Match(prod, book, aggr) == Outcome(book, aggr, [])
  {
  }

  lemma MoreTraded(t: Trade, trades: seq<Trade>)
    ensures RestingTraded([t] + trades) == RestingTraded(trades) + {t.resting.orderId}
    ensures t.Valid() && SameAggressor(trades, t.aggr.orderId) ==> SameAggressor([t] + trades, t.aggr.orderId)
    ensures SameAggressor([t] + trades, t.aggr.orderId) ==> SameAggressor(trades, t.aggr.orderId)
  {
    var all := [t] + trades;
    assert all[0] == t && forall i :: 0 <= i < |trades| ==> all[i + 1] == trades[i];
    forall i | 0 < i < |all| && SameAggressor(trades, t.aggr.orderId)
      ensures all[i].Valid() && all[i].aggr.orderId == t.aggr.orderId
    {
      assert all[i] == trades[i - 1];
    }
    forall i | 0 <= i < |trades| && SameAggressor(all, t.aggr.orderId)
      ensures trades[i].Valid() && trades[i].aggr.orderId == t.aggr.orderId
    {
      assert all[i + 1] == trades[i];
    }
    assert RestingTraded(all) == RestingTraded(trades) + {t.resting.orderId} by {
      forall id | id in RestingTraded(trades)
        ensures id in RestingTraded(all)
      {
        var i :| 0 <= i < |trades| && trades[i].resting.orderId == id;
        assert all[i + 1].resting.orderId == id;
      }
    }
  }

  lemma EventIdsOfConcat(a: seq<FillEvent>, b: seq<FillEvent>)
    ensures EventIds(a + b) == EventIds(a) + EventIds(b)
  {
    forall id | id in EventIds(b)
      ensures id in EventIds(a + b)
    {
      var i :| 0 <= i < |b| && b[i].snapshot.orderId == id;
      assert (a + b)[|a| + i].snapshot.orderId == id;
    }
    forall id | id in EventIds(a)
      ensures id in EventIds(a + b)
    {
      var i :| 0 <= i < |a| && a[i].snapshot.orderId == id;
      assert (a + b)[i].snapshot.orderId == id;
    }
  }

  predicate PendingIs(pending: Option<Pending>, id: OrderId) {
    pending.Some? ==> pending.value.aggr.orderId == id
  }

  lemma {:induction false} RenderIds(pending: Option<Pending>, trades: seq<Trade>, id: OrderId)
    requires SameAggressor(trades, id) && PendingIs(pending, id)
    ensures EventIds(Render(pending, trades)) <= RestingTraded(trades) + {id}
    decreases |trades|
  {
    if trades != [] {
      var t, rest := trades[0], trades[1..];
      assert trades == [t] + rest;
      MoreTraded(t, rest);
      RenderIds(Some(Extend(pending, t)), rest, id);
      EventIdsOfConcat(FlushBefore(pending, t) + [RestingEvent(t)], Render(Some(Extend(pending, t)), rest));
      EventIdsOfConcat(FlushBefore(pending, t), [RestingEvent(t)]);
    }
  }

  /** A match brings no strangers into the book or into its events. */
  lemma SubmitIds(prod: bool, book: seq<Order>, aggr: Order)
    requires UniqueIds(book) && aggr.orderId !in Ids(book)
    ensures
      var r := Submit(prod, book, aggr);
      && UniqueIds(r.book) && Ids(r.book) <= Ids(book) + {aggr.orderId}
      && (SessionsFit(book) && SessionsFit([aggr]) ==> SessionsFit(r.book))
      && EventIds(r.events) <= Ids(book) + {aggr.orderId}
  {
    hide Match, Render;
    var m := Match(prod, book, aggr);
    MatchIds(prod, book, aggr);
    RenderIds(None, m.trades, aggr.orderId);
    var last := Finish(m.book, m.aggr, m.trades != []);
    EventIdsOfConcat(Render(None, m.trades), last.events);
    AppendIds(m.book, m.aggr);
    assert SessionsFit([aggr]) ==> [aggr][0].sessionId == SessionOf(aggr.orderId);
  }

  lemma AppendIds(book: seq<Order>, o: Order)
    requires UniqueIds(book) && o.orderId !in Ids(book)
    ensures UniqueIds(book + [o]) && Ids(book + [o]) == Ids(book) + {o.orderId}
    ensures SessionsFit(book + [o]) <==> SessionsFit(book) && SessionsFit([o])
  {
    var all := book + [o];
    assert all[|book|] == o;
    assert forall i :: 0 <= i < |book| ==> all[i] == book[i] && book[i].orderId in Ids(book);
    assert forall k :: k in Ids(book) ==> exists i :: 0 <= i < |book| && all[i].orderId == k;
    assert SessionsFit([o]) <==> o.sessionId == SessionOf(o.orderId);
  }

  // ----- What every step of the exchange keeps

  /** Notices added and engines changed one at a time keep the exchange fit. */
  lemma EngineReplaced(x: ExchangeState, x': ExchangeState, name: string)
    requires ExchangeFits(x) && name in x.engines && name in x'.engines
    requires x'.engines == x.engines[name := x'.engines[name]]
    requires forall id :: id in x.lookup ==> id in x'.lookup && x'.lookup[id] == x.lookup[id]
    requires forall id :: id in x'.lookup && id !in x.lookup ==> x'.lookup[id] == name
    requires EngineFits(x'.engines[name], name, x'.lookup)
    requires x.toServer <= x'.toServer
    requires forall i :: |x.toServer| <= i < |x'.toServer| ==> x'.toServer[i].orderId in x'.lookup
    ensures ExchangeFits(x')
  {
    forall other | other in x'.engines && other != name
      ensures EngineFits(x'.engines[other], other, x'.lookup)
    {
      assert EngineFits(x.engines[other], other, x.lookup);
    }
    forall i | 0 <= i < |x'.toServer|
      ensures x'.toServer[i].orderId in x'.lookup
    {
      assert i < |x.toServer| ==> x'.toServer[i] == x.toServer[i];
    }
  }

  lemma GivenFits(x: ExchangeState, name: string, o: Order, attempt: Attempt)
    requires EnginesFit(x) && name in x.engines && o.orderId !in x.lookup && o.sessionId == SessionOf(o.orderId)
    ensures EnginesFit(GivenToEngine(x, name, o, attempt))
  {
    var x0 := x.(toServer := []);
    var e, x' := x.engines[name], GivenToEngine(x0, name, o, attempt);
    assert EngineFits(e, name, x.lookup);
    AppendIds(e.pending, o);
    OneSessionFits(o);
    hide Ids, EventIds, UniqueIds, SessionsFit;
    assert EngineFits(x'.engines[name], name, x'.lookup);
    assert x.engines == x.engines[name := e];
    EngineReplaced(x0, x', name);
  }

  lemma OrderTakenFits(x: ExchangeState, r: OrderRequest, attempt: Attempt)
    requires ExchangeFits(x) && r.orderId !in x.lookup && OrderTaken(x, r, attempt).Some?
    ensures ExchangeFits(OrderTaken(x, r, attempt).value)
  {
    hide EngineFits;
    if CreateOrder(r).Some? {
      GivenFits(Told(x, StatusUpdate(r.orderId, Accepted)), r.instrument, CreateOrder(r).value, attempt);
    }
  }

  lemma NotPending(x: ExchangeState, id: OrderId)
    requires EnginesFit(x) && id !in x.lookup
    ensures forall name :: name in x.engines ==> id !in Ids(x.engines[name].pending)
  {
    forall name | name in x.engines
      ensures id !in Ids(x.engines[name].pending)
    {
      assert EngineFits(x.engines[name], name, x.lookup);
    }
  }

  lemma OneSessionFits(o: Order)
    ensures SessionsFit([o]) <==> o.sessionId == SessionOf(o.orderId)
  {
    assert [o][0] == o;
  }

  lemma CancelTakenFits(x: ExchangeState, session: SessionId, orderNum: nat)
    requires ExchangeFits(x)
    ensures ExchangeFits(CancelTaken(x, session, orderNum))
  {
    var id := GenerateOrderId(session, orderNum);
    if id in x.lookup && x.lookup[id] in x.engines {
      var name, x' := x.lookup[id], CancelTaken(x, session, orderNum);
      assert EngineFits(x.engines[name], name, x.lookup);
      WithoutIds(x.engines[name].book, id);
      EngineReplaced(x, x', name);
    }
  }

  lemma FirstPending(pending: seq<Order>)
    requires pending != [] && UniqueIds(pending)
    ensures Ids(pending) == Ids(pending[1..]) + {pending[0].orderId} && pending[0].orderId !in Ids(pending[1..])
    ensures UniqueIds(pending[1..])
    ensures SessionsFit(pending) ==> SessionsFit(pending[1..]) && SessionsFit([pending[0]])
  {
    var rest := pending[1..];
    assert forall i :: 0 <= i < |rest| ==> rest[i] == pending[i + 1];
    forall id | id in Ids(pending) && id != pending[0].orderId
      ensures id in Ids(rest)
    {
      var i :| 0 <= i < |pending| && pending[i].orderId == id;
      assert rest[i - 1].orderId == id;
    }
  }

  lemma OrderMatchedFits(prod: bool, x: ExchangeState, name: string)
    requires ExchangeFits(x) && name in x.engines && x.engines[name].pending != []
    ensures ExchangeFits(OrderMatched(prod, x, name))
  {
    var e, x' := x.engines[name], OrderMatched(prod, x, name);
    assert EngineFits(e, name, x.lookup);
    FirstPending(e.pending);
    SubmitIds(prod, e.book, e.pending[0]);
    EventIdsOfConcat(e.events, Submit(prod, e.book, e.pending[0]).events);
    hide Submit, Ids, EventIds, UniqueIds, SessionsFit;
    assert EngineFits(x'.engines[name], name, x'.lookup);
    EngineReplaced(x, x', name);
  }

  lemma FillReportedFits(x: ExchangeState, name: string)
    requires ExchangeFits(x) && name in x.engines && x.engines[name].events != []
    ensures ExchangeFits(FillReported(x, name))
  {
    var e, x' := x.engines[name], FillReported(x, name);
    assert EngineFits(e, name, x.lookup);
    EventIdsOfConcat(e.events[..1], e.events[1..]);
    assert e.events[..1] + e.events[1..] == e.events;
    assert e.events[0].snapshot.orderId in EventIds(e.events);
    hide Ids, EventIds, UniqueIds, SessionsFit;
    assert EngineFits(x'.engines[name], name, x'.lookup);
    EngineReplaced(x, x', name);
  }

  // ----- Cancelling across engines

  /**
   * A cancel is answered if the order was ever given to an engine, and then with success if and only if
   * the order rests somewhere at that moment; it is gone afterwards, and nothing else has changed.
   */
  lemma CancelIsExact(x: ExchangeState, session: SessionId, orderNum: nat)
    requires ExchangeFits(x)
    ensures
      var id, x' := GenerateOrderId(session, orderNum), CancelTaken(x, session, orderNum);
      && x'.lookup == x.lookup && x'.engines.Keys == x.engines.Keys
      && x'.toServer ==
           (if id in x.lookup then x.toServer + [CancelResponse(id, exists name :: RestsIn(x, name, id))]
             else x.toServer)
      && (forall name :: name in x.engines ==>
            x'.engines[name] == x.engines[name].(book := Without(x.engines[name].book, id)))
      && (forall name :: !RestsIn(x', name, id))
  {
    var id, x' := GenerateOrderId(session, orderNum), CancelTaken(x, session, orderNum);
    forall name | name in x.engines
      ensures RestsIn(x, name, id) ==> id in x.lookup && x.lookup[id] == name
      ensures x'.engines[name] == x.engines[name].(book := Without(x.engines[name].book, id))
      ensures !RestsIn(x', name, id)
    {
      var book := x.engines[name].book;
      assert EngineFits(x.engines[name], name, x.lookup);
      WithoutIds(book, id);
      RestingIsInIds(Without(book, id), id);
      if RestsIn(x, name, id) {
        RestsOnlyWhereLookedUp(x, name, id);
      } else {
        WithoutAbsent(book, id);
      }
    }
  }

  // ----- The exchange as the program has it

  class Exchange {
    const isProduction: bool
    var matchingEngines: map<string, Engine>
    var matchingEngineLookupMap: map<OrderId, string>
    var exchangeToServerQueue: seq<Notice>

    function State(): ExchangeState
      reads this
    {
      ExchangeState(matchingEngines, matchingEngineLookupMap, exchangeToServerQueue)
    }

    constructor (instruments: set<string>, isProduction: bool)
      ensures this.isProduction == isProduction && ExchangeFits(State())
      ensures State() == ExchangeState(map name | name in instruments :: Engine([], [], []), map[], [])
    {
      this.isProduction := isProduction;
      matchingEngines := map name | name in instruments :: Engine([], [], []);
      matchingEngineLookupMap, exchangeToServerQueue := map[], [];
    }

    /**
     * Ended says that the call ended the exchange, which is so exactly if there is no engine, or its queue refuses the
     * order while logging is on.  Otherwise the order is looked up at its engine from now on, where it waits last;
     * but if it was refused, it waits nowhere.
     */
    method GiveToMatchingEngine(order: Order, instrument: string, attempt: Attempt) returns (ended: bool)
      requires EnginesFit(State())
      requires order.orderId !in matchingEngineLookupMap && order.sessionId == SessionOf(order.orderId)
      modifies this
      ensures ended <==> instrument !in old(matchingEngines) || attempt == Refused(true)
      ensures ended ==> State() == old(State())
      ensures !ended ==> State() == GivenToEngine(old(State()), instrument, order, attempt) && EnginesFit(State())
      ensures forall name :: name in matchingEngines && order.orderId in Ids(matchingEngines[name].pending) ==>
        !ended && attempt.Queued? && name == instrument
      ensures forall name, id :: RestsIn(State(), name, id) <==> RestsIn(old(State()), name, id)
    {
      ghost var x := State();
      hide Ids, EngineFits;
      NotPending(x, order.orderId);
      if instrument !in matchingEngines || attempt == Refused(true) {
        return true;
      }
      GivenFits(x, instrument, order, attempt);
      if attempt.Queued? {
        var engine := matchingEngines[instrument];
        matchingEngines := matchingEngines[instrument := engine.(pending := engine.pending + [order])];
      }
      matchingEngineLookupMap := matchingEngineLookupMap[order.orderId := instrument];
      ended := false;
    }

    /**
     * A request that makes no order is ignored.  When an order ends the exchange, it has been announced as accepted,
     * and is nowhere.
     */
    method HandleIncomingOrderRequest(request: OrderRequest, attempt: Attempt) returns (ended: bool)
      requires ExchangeFits(State()) && request.orderId !in matchingEngineLookupMap
      modifies this
      ensures ended <==>
        CreateOrder(request).Some? && (request.instrument !in old(matchingEngines) || attempt == Refused(true))
      ensures ended <==> OrderTaken(old(State()), request, attempt).None?
      ensures ended ==> State() == Told(old(State()), StatusUpdate(request.orderId, Accepted))
      ensures !ended ==> State() == OrderTaken(old(State()), request, attempt).value && ExchangeFits(State())
    {
      hide EngineFits;
      ended := false;
      var order := CreateOrder(request);
      if OrderTaken(State(), request, attempt).Some? {
        OrderTakenFits(State(), request, attempt);
      }
      if order.Some? {
        exchangeToServerQueue := exchangeToServerQueue + [StatusUpdate(order.value.orderId, Accepted)];
        ended := GiveToMatchingEngine(order.value, request.instrument, attempt);
      }
    }

    method HandleIncomingCancelOrder(session: SessionId, orderNum: nat)
      requires ExchangeFits(State())
      modifies this
      ensures State() == CancelTaken(old(State()), session, orderNum) && ExchangeFits(State())
    {
      CancelTakenFits(State(), session, orderNum);
      var id := GenerateOrderId(session, orderNum);
      if id in matchingEngineLookupMap {
        var name := matchingEngineLookupMap[id];
        var engine := matchingEngines[name];
        var success := exists i :: 0 <= i < |engine.book| && engine.book[i].orderId == id;
        matchingEngines := matchingEngines[name := engine.(book := Without(engine.book, id))];
        exchangeToServerQueue := exchangeToServerQueue + [CancelResponse(id, success)];
      }
    }

    /** One turn of the loop over raw trades, for an event of the named engine. */
    method ProcessMatchingEngineFill(name: string)
      requires ExchangeFits(State()) && name in matchingEngines && matchingEngines[name].events != []
      modifies this
      ensures State() == FillReported(old(State()), name) && ExchangeFits(State())
    {
      FillReportedFits(State(), name);
      var engine := matchingEngines[name];
      var fillEvent := engine.events[0];
      ghost var before := exchangeToServerQueue;
      matchingEngines := matchingEngines[name := engine.(events := engine.events[1..])];
      if fillEvent.qty > 0 {
        exchangeToServerQueue := exchangeToServerQueue +
          [Fills(fillEvent.snapshot.orderId, fillEvent.qty, fillEvent.price, fillEvent.snapshot.qtyRemaining)];
      }
      if fillEvent.statusChanged {
        exchangeToServerQueue := exchangeToServerQueue +
          [StatusUpdate(fillEvent.snapshot.orderId, fillEvent.snapshot.status)];
      }
      assert exchangeToServerQueue == before + Reports(fillEvent);
    }
  }
}
