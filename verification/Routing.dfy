/**
 * Brokers, gateway and exchange together.  Connections come and go on descriptors, brokers place and cancel
 * orders, engines match, notices travel back: in any order.  Which connection an order belongs to is
 * remembered beside the program, and what the program does for a session is compared with it.
 */
module Routing {
  import opened Options
  import opened TradingTypes
  import opened PriceTime
  import opened OrderIds
  import opened ExchangeServers
  import opened Exchanges

  /**
   * Connections are numbered from one.  Live gives the one that is on a descriptor; holder, the one that the descriptor
   * was registered for, unless its end was noticed; owner, the one that placed an order.  Arriving is a descriptor
   * that was accepted and armed, but whose session is not registered yet.
   */
  datatype System = System(
    g: Gateway,
    x: ExchangeState,
    cxns: nat,
    accepted: nat,
    arriving: Option<Fd>,
    live: map<Fd, nat>,
    holder: map<Fd, nat>,
    owner: map<OrderId, nat>)

  datatype Action =
    | Arrive(fd: Fd)          // the listening thread accepts a connection and arms its descriptor
    | Register                // and then registers the session
    | Disconnect(fd: Fd)      // a handler notices that the peer has hung up
    | Message(fd: Fd, request: Request, isOpen: bool, room: bool)
    | Take(attempt: Attempt)  // the exchange dequeues a message of the gateway
    | Match(name: string)     // an engine dequeues an order
    | Report(name: string)    // the exchange turns an engine's event into notices
    | Deliver(i: nat)         // the gateway forwards a notice

  /** The server closes no descriptor, so a new connection is never on one that is in use or still registered. */
  predicate Enabled(s: System, a: Action) {
    match a
    case Arrive(fd) => s.arriving.None? && fd !in s.live && fd !in s.holder
    case Register => s.arriving.Some?
    case Disconnect(fd) => fd in s.live
    case Message(_, _, _, _) => true
    case Take(attempt) =>
      s.g.toExchange != [] && (s.g.toExchange[0].NewOrder? ==> OrderTaken(s.x, s.g.toExchange[0].order, attempt).Some?)
    case Match(name) => name in s.x.engines && s.x.engines[name].pending != []
    case Report(name) => name in s.x.engines && s.x.engines[name].events != []
    case Deliver(i) => i < |s.x.toServer|
  }

  /** Does this message get an order id? */
  predicate Accepts(s: System, supported: set<string>, a: Action) {
    a.Message? && a.request.Place? && a.fd in s.g.right && Acceptable(a.isOpen, supported, a.request.order)
  }

  function NextId(s: System, fd: Fd): OrderId
    requires fd in s.g.right
  {
    GenerateOrderId(s.g.right[fd], NextOrderNum(s.g))
  }

  function Taken(s: System, attempt: Attempt): ExchangeState
    requires Enabled(s, Take(attempt))
  {
    match s.g.toExchange[0]
    case NewOrder(order) => OrderTaken(s.x, order, attempt).value
    case CancelOrder(session, num) => CancelTaken(s.x, session, num)
  }

  function Do(s: System, prod: bool, supported: set<string>, a: Action): System
    requires Enabled(s, a)
  {
    match a
    case Arrive(fd) => s.(arriving := Some(fd), live := s.live[fd := s.cxns + 1])
    case Register =>
      var fd := s.arriving.value;
      s.(g := Connected(s.g, fd), cxns := s.cxns + 1, arriving := None, holder := s.holder[fd := s.cxns + 1])
    case Disconnect(fd) =>
      s.(g := if fd in s.g.right then Disconnected(s.g, fd).value else s.g,
         live := s.live - {fd}, holder := s.holder - {fd})
    case Message(fd, request, isOpen, room) =>
      var s' := s.(g := Handled(s.g, supported, fd, request, isOpen, room));
      if Accepts(s, supported, a) && fd in s.holder
      then s'.(accepted := s.accepted + 1, owner := s.owner[NextId(s, fd) := s.holder[fd]]) else s'
    case Take(attempt) => s.(g := s.g.(toExchange := s.g.toExchange[1..]), x := Taken(s, attempt))
    case Match(name) => s.(x := OrderMatched(prod, s.x, name))
    case Report(name) => s.(x := FillReported(s.x, name))
    case Deliver(i) => s.(g := Notified(s.g, s.x.toServer[i].orderId, About(s.x.toServer[i].orderId)))
  }

  function Next(s: System, prod: bool, supported: set<string>, a: Action): System {
    if Enabled(s, a) then Do(s, prod, supported, a) else s
  }

  function Initial(supported: set<string>): System {
    System(Gateway(map[], map[], 0, 0, [], []),
           ExchangeState(map name | name in supported :: Engine([], [], []), map[], []),
           0, 0, None, map[], map[], map[])
  }

  /** A run takes its actions in order; one that is not enabled does nothing. */
  function Run(prod: bool, supported: set<string>, actions: seq<Action>): System {
    if actions == [] then Initial(supported)
    else Next(Run(prod, supported, actions[..|actions| - 1]), prod, supported, actions[|actions| - 1])
  }

  // ----- The invariant

  ghost predicate SessionsInv(s: System) {
    && OneToOne(s.g)
    && s.g.allTimeCxns == s.cxns % TWO_TO_THE_32
    && (forall fd :: fd in s.g.right ==> fd in s.holder && s.g.right[fd] == SessionOfConnection(s.holder[fd]))
    && (forall fd :: fd in s.holder ==> 1 <= s.holder[fd] <= s.cxns)
    && (forall fd, fd' :: fd in s.holder && fd' in s.holder && fd != fd' ==> s.holder[fd] != s.holder[fd'])
  }

  /** Live connections but the arriving one hold their descriptors; that one will have the next number. */
  ghost predicate LiveInv(s: System) {
    && (forall fd :: fd in s.live ==>
          if s.arriving == Some(fd) then s.live[fd] == s.cxns + 1 else fd in s.holder && s.holder[fd] == s.live[fd])
    && (s.arriving.Some? ==> s.arriving.value !in s.holder)
  }

  /** An id carries the session of the connection that placed the order, and a number given out before. */
  ghost predicate OwnersInv(s: System) {
    forall id :: id in s.owner ==>
      && SessionOf(id) == SessionOfConnection(s.owner[id]) && 1 <= s.owner[id] <= s.cxns
      && 1 <= OrderNumOf(id) <= s.accepted
  }

  ghost predicate MessageFits(s: System, msg: ExchangeMsg) {
    match msg
    case NewOrder(order) =>
      && order.orderId in s.owner && order.orderId !in s.x.lookup
      && order.instrument in s.x.engines && CreateOrder(order).Some?
    case CancelOrder(session, _) => session < TWO_TO_THE_16
  }

  ghost predicate QueueInv(s: System) {
    && (forall i :: 0 <= i < |s.g.toExchange| ==> MessageFits(s, s.g.toExchange[i]))
    && (forall i, j :: 0 <= i < j < |s.g.toExchange| && s.g.toExchange[i].NewOrder? && s.g.toExchange[j].NewOrder? ==>
          s.g.toExchange[i].order.orderId != s.g.toExchange[j].order.orderId)
  }

  ghost predicate ExchangeInv(s: System, supported: set<string>) {
    ExchangeFits(s.x) && s.x.lookup.Keys <= s.owner.Keys && s.x.engines.Keys == supported
  }

  ghost predicate Inv(s: System, supported: set<string>) {
    && SessionsInv(s) && LiveInv(s) && OwnersInv(s) && QueueInv(s) && ExchangeInv(s, supported)
    && s.g.totalOrders == s.accepted
  }

  // ----- The steps

  lemma ArriveKeeps(s: System, prod: bool, supported: set<string>, fd: Fd)
    requires Inv(s, supported) && Enabled(s, Arrive(fd))
    ensures Inv(Do(s, prod, supported, Arrive(fd)), supported)
  {
    hide OneToOne, ExchangeFits, QueueInv, SessionOf, SessionOfConnection, OrderNumOf;
    SameQueue(s, Do(s, prod, supported, Arrive(fd)));
  }

  lemma RegisterSessions(s: System, s': System, fd: Fd)
    requires SessionsInv(s) && fd !in s.holder && s'.g == Connected(s.g, fd)
    requires s'.cxns == s.cxns + 1 && s'.holder == s.holder[fd := s.cxns + 1]
    ensures SessionsInv(s')
  {
    ConnectedOneToOne(s.g, fd);
    hide OneToOne;
    assert (s.g.allTimeCxns + 1) % TWO_TO_THE_32 == (s.cxns + 1) % TWO_TO_THE_32;
  }

  lemma RegisterKeeps(s: System, prod: bool, supported: set<string>)
    requires Inv(s, supported) && Enabled(s, Register)
    ensures Inv(Do(s, prod, supported, Register), supported)
  {
    hide OneToOne, ExchangeFits, QueueInv, SessionsInv, SessionOf, SessionOfConnection, OrderNumOf;
    var fd, s' := s.arriving.value, Do(s, prod, supported, Register);
    RegisterSessions(s, s', fd);
    SameQueue(s, s');
  }

  lemma DisconnectKeeps(s: System, prod: bool, supported: set<string>, fd: Fd)
    requires Inv(s, supported) && fd in s.live
    ensures Inv(Do(s, prod, supported, Disconnect(fd)), supported)
  {
    hide ExchangeFits, QueueInv, SessionOf, SessionOfConnection, OrderNumOf;
    SameQueue(s, Do(s, prod, supported, Disconnect(fd)));
    if fd in s.g.right {
      DisconnectedOneToOne(s.g, fd);
    }
  }

  /** An id given out now is new: its number is larger than every number given out before. */
  lemma NextIdIsNew(s: System, supported: set<string>, fd: Fd)
    requires Inv(s, supported) && fd in s.g.right && s.accepted + 1 < TWO_TO_THE_32
    ensures NextId(s, fd) !in s.owner
    ensures SessionOf(NextId(s, fd)) == s.g.right[fd] == SessionOfConnection(s.holder[fd])
    ensures OrderNumOf(NextId(s, fd)) == s.accepted + 1
  {
    Unpacks(s.g.right[fd], NextOrderNum(s.g));
  }

  /** All that accepting an order changes. */
  lemma Accepted(s: System, prod: bool, supported: set<string>, a: Action)
    requires Inv(s, supported) && Accepts(s, supported, a) && s.accepted + 1 < TWO_TO_THE_32
    ensures
      var s', id := Do(s, prod, supported, a), NextId(s, a.fd);
      && s' == s.(g := s'.g, accepted := s.accepted + 1, owner := s.owner[id := s.holder[a.fd]])
      && s'.g.left == s.g.left && s'.g.right == s.g.right && s'.g.allTimeCxns == s.g.allTimeCxns
      && s'.g.totalOrders == s.accepted + 1
      && s'.g.toExchange ==
           if a.room then s.g.toExchange + [NewOrder(a.request.order.(orderId := id))] else s.g.toExchange
  {
    hide OneToOne, ExchangeFits, QueueInv, OwnersInv;
  }

  lemma AcceptKeeps(s: System, prod: bool, supported: set<string>, a: Action)
    requires Inv(s, supported) && Accepts(s, supported, a) && s.accepted + 1 < TWO_TO_THE_32
    ensures Inv(Do(s, prod, supported, a), supported)
  {
    var s', id := Do(s, prod, supported, a), NextId(s, a.fd);
    NextIdIsNew(s, supported, a.fd);
    Accepted(s, prod, supported, a);
    SameSessions(s.g, s'.g);
    AcceptedIsNew(s, supported, a, id);
    hide OneToOne, ExchangeFits, SessionOf, OrderNumOf, SessionOfConnection, NextId, Do, QueueInv, MessageFits;
    QueueGrows(s, s', NewOrder(a.request.order.(orderId := id)));
  }

  lemma AcceptedIsNew(s: System, supported: set<string>, a: Action, id: OrderId)
    requires Inv(s, supported) && Accepts(s, supported, a) && id !in s.owner
    ensures id !in s.x.lookup && a.request.order.instrument in s.x.engines
    ensures CreateOrder(a.request.order.(orderId := id)).Some?
  {
    hide SessionsInv, LiveInv, QueueInv, OwnersInv, ExchangeFits;
  }

  /** A message of a new or of no order id goes behind the others. */
  lemma QueueGrows(s: System, s': System, msg: ExchangeMsg)
    requires QueueInv(s) && s'.x == s.x
    requires forall id :: id in s.owner ==> id in s'.owner
    requires s'.g.toExchange == s.g.toExchange || s'.g.toExchange == s.g.toExchange + [msg]
    requires MessageFits(s', msg) && (msg.NewOrder? ==> msg.order.orderId !in s.owner)
    ensures QueueInv(s')
  {
    var queue, queue' := s.g.toExchange, s'.g.toExchange;
    forall i | 0 <= i < |queue'|
      ensures MessageFits(s', queue'[i])
    {
      assert i < |queue| ==> MessageFits(s, queue[i]);
    }
    forall i, j | 0 <= i < j < |queue'| && queue'[i].NewOrder? && queue'[j].NewOrder?
      ensures queue'[i].order.orderId != queue'[j].order.orderId
    {
      assert MessageFits(s, queue[i]);
    }
  }

  lemma OtherMessageKeeps(s: System, prod: bool, supported: set<string>, a: Action)
    requires Inv(s, supported) && a.Message? && !Accepts(s, supported, a)
    ensures Inv(Do(s, prod, supported, a), supported)
  {
    var s', queue := Do(s, prod, supported, a), s.g.toExchange;
    SameSessions(s.g, s'.g);
    assert s'.g.toExchange == queue ||
      (a.request.Cancel? && a.fd in s.g.right &&
       s'.g.toExchange == queue + [CancelOrder(s.g.right[a.fd], a.request.orderNum)]);
    assert s' == s.(g := s'.g) && s'.g.totalOrders == s.g.totalOrders && s'.g.allTimeCxns == s.g.allTimeCxns;
    hide OneToOne, ExchangeFits, Handled, Accepts;
    var session := if a.fd in s.g.right then s.g.right[a.fd] else 0;
    QueueGrows(s, s', CancelOrder(session, if a.request.Cancel? then a.request.orderNum else 0));
  }

  lemma OrderTakenShape(x: ExchangeState, order: OrderRequest, attempt: Attempt)
    requires OrderTaken(x, order, attempt).Some?
    ensures
      var x' := OrderTaken(x, order, attempt).value;
      && x'.engines.Keys == x.engines.Keys
      && (x'.lookup == x.lookup || x'.lookup == x.lookup[order.orderId := order.instrument])
  {
  }

  /** What waits behind the first message still fits when that one is taken. */
  lemma QueueTail(s: System, s': System)
    requires QueueInv(s) && s.g.toExchange != [] && s'.g.toExchange == s.g.toExchange[1..] && s'.owner == s.owner
    requires s'.x.engines.Keys == s.x.engines.Keys
    requires forall id :: id in s'.x.lookup && id !in s.x.lookup ==>
      s.g.toExchange[0].NewOrder? && s.g.toExchange[0].order.orderId == id
    ensures QueueInv(s')
  {
    forall i | 0 <= i < |s'.g.toExchange|
      ensures MessageFits(s', s'.g.toExchange[i])
    {
      assert MessageFits(s, s.g.toExchange[i + 1]);
    }
  }

  lemma TakeNewKeeps(s: System, prod: bool, supported: set<string>, attempt: Attempt)
    requires Inv(s, supported) && Enabled(s, Take(attempt)) && s.g.toExchange[0].NewOrder?
    ensures Inv(Do(s, prod, supported, Take(attempt)), supported)
  {
    hide OneToOne, ExchangeFits, OrderTaken;
    var s', order := Do(s, prod, supported, Take(attempt)), s.g.toExchange[0].order;
    assert MessageFits(s, s.g.toExchange[0]);
    OrderTakenFits(s.x, order, attempt);
    OrderTakenShape(s.x, order, attempt);
    SameSessions(s.g, s'.g);
    hide QueueInv, MessageFits;
    QueueTail(s, s');
  }

  lemma TakeCancelKeeps(s: System, prod: bool, supported: set<string>, attempt: Attempt)
    requires Inv(s, supported) && Enabled(s, Take(attempt)) && s.g.toExchange[0].CancelOrder?
    ensures Inv(Do(s, prod, supported, Take(attempt)), supported)
  {
    var s', msg := Do(s, prod, supported, Take(attempt)), s.g.toExchange[0];
    CancelTakenFits(s.x, msg.session, msg.orderNum);
    CancelIsExact(s.x, msg.session, msg.orderNum);
    SameSessions(s.g, s'.g);
    hide OneToOne, ExchangeFits, CancelTaken, RestsIn, GenerateOrderId, QueueInv;
    QueueTail(s, s');
  }

  lemma StepKeeps(s: System, prod: bool, supported: set<string>, a: Action)
    requires Inv(s, supported) && Enabled(s, a) && Do(s, prod, supported, a).accepted < TWO_TO_THE_32
    ensures Inv(Do(s, prod, supported, a), supported)
  {
    hide OneToOne, ExchangeFits, Submit, Acceptable;
    match a
    case Arrive(fd) => ArriveKeeps(s, prod, supported, fd);
    case Register => RegisterKeeps(s, prod, supported);
    case Disconnect(fd) => DisconnectKeeps(s, prod, supported, fd);
    case Message(_, _, _, _) =>
      if Accepts(s, supported, a) {
        AcceptKeeps(s, prod, supported, a);
      } else {
        OtherMessageKeeps(s, prod, supported, a);
      }
    case Take(attempt) =>
      if s.g.toExchange[0].NewOrder? {
        TakeNewKeeps(s, prod, supported, attempt);
      } else {
        TakeCancelKeeps(s, prod, supported, attempt);
      }
    case Match(name) =>
      OrderMatchedFits(prod, s.x, name);
      EngineStepKeeps(s, OrderMatched(prod, s.x, name), supported);
    case Report(name) =>
      FillReportedFits(s.x, name);
      EngineStepKeeps(s, FillReported(s.x, name), supported);
    case Deliver(i) =>
      assert OneToOne(Do(s, prod, supported, a).g) by { SameSessions(s.g, Do(s, prod, supported, a).g); }
      SameQueue(s, Do(s, prod, supported, a));
  }

  lemma SameSessions(g: Gateway, g': Gateway)
    requires OneToOne(g) && g'.left == g.left && g'.right == g.right
    ensures OneToOne(g')
  {
  }

  lemma SameQueue(s: System, s': System)
    requires QueueInv(s) && s'.g.toExchange == s.g.toExchange && s'.owner == s.owner
    requires s'.x.lookup == s.x.lookup && s'.x.engines.Keys == s.x.engines.Keys
    ensures QueueInv(s')
  {
    forall i | 0 <= i < |s'.g.toExchange|
      ensures MessageFits(s', s'.g.toExchange[i])
    {
      assert MessageFits(s, s.g.toExchange[i]);
    }
  }

  lemma EngineStepKeeps(s: System, x: ExchangeState, supported: set<string>)
    requires Inv(s, supported) && ExchangeFits(x)
    requires x.lookup == s.x.lookup && x.engines.Keys == s.x.engines.Keys
    ensures Inv(s.(x := x), supported)
  {
    hide OneToOne, ExchangeFits;
    SameQueue(s, s.(x := x));
  }

  lemma OneMoreAction(prod: bool, supported: set<string>, actions: seq<Action>, a: Action)
    ensures Run(prod, supported, actions + [a]) == Next(Run(prod, supported, actions), prod, supported, a)
  {
    assert (actions + [a])[..|actions|] == actions;
  }

  lemma CountsGrow(prod: bool, supported: set<string>, actions: seq<Action>)
    requires actions != []
    ensures
      var before, after := Run(prod, supported, actions[..|actions| - 1]), Run(prod, supported, actions);
      before.accepted <= after.accepted && before.cxns <= after.cxns
  {
    hide Next;
    NextCounts(Run(prod, supported, actions[..|actions| - 1]), prod, supported, actions[|actions| - 1]);
  }

  lemma NextCounts(s: System, prod: bool, supported: set<string>, a: Action)
    ensures var s' := Next(s, prod, supported, a); s.accepted <= s'.accepted && s.cxns <= s'.cxns
  {
    hide Connected, Disconnected, Handled, Accepts, NextId, Taken, OrderMatched, FillReported, OrderTaken, Notified;
  }

  lemma {:induction false} RunKeeps(prod: bool, supported: set<string>, actions: seq<Action>)
    requires Run(prod, supported, actions).accepted < TWO_TO_THE_32
    ensures Inv(Run(prod, supported, actions), supported)
  {
    if actions != [] {
      var rest, a := actions[..|actions| - 1], actions[|actions| - 1];
      CountsGrow(prod, supported, actions);
      RunKeeps(prod, supported, rest);
      if Enabled(Run(prod, supported, rest), a) {
        StepKeeps(Run(prod, supported, rest), prod, supported, a);
      }
    }
  }

  // ----- Isolation

  /** Fewer connections than session ids: the bound under which a session names one connection. */
  predicate FewConnections(s: System) {
    s.cxns < TWO_TO_THE_16
  }

  /** The session map is one-to-one, whatever happens and however long. */
  lemma {:induction false} SessionsStayOneToOne(prod: bool, supported: set<string>, actions: seq<Action>)
    ensures OneToOne(Run(prod, supported, actions).g)
  {
    if actions != [] {
      var rest, a := actions[..|actions| - 1], actions[|actions| - 1];
      SessionsStayOneToOne(prod, supported, rest);
      if Enabled(Run(prod, supported, rest), a) {
        StepStaysOneToOne(Run(prod, supported, rest), prod, supported, a);
      }
    }
  }

  lemma StepStaysOneToOne(s: System, prod: bool, supported: set<string>, a: Action)
    requires OneToOne(s.g) && Enabled(s, a)
    ensures OneToOne(Do(s, prod, supported, a).g)
  {
    hide OneToOne, Connected, Disconnected, Accepts, NextId, Handled, Taken, OrderMatched, FillReported, OrderTaken;
    match a
    case Message(_, _, _, _) =>
      MessageKeepsSessions(s.g, supported, a);
      SameSessions(s.g, Do(s, prod, supported, a).g);
    case Register => ConnectedOneToOne(s.g, s.arriving.value);
    case Disconnect(fd) =>
      if fd in s.g.right {
        DisconnectedOneToOne(s.g, fd);
      }
    case _ => SameSessions(s.g, Do(s, prod, supported, a).g);
  }

  /** With few connections each descriptor has the session of the connection it was registered for, or none. */
  lemma SessionsAreOfHolders(prod: bool, supported: set<string>, actions: seq<Action>, fd: Fd)
    requires Run(prod, supported, actions).accepted < TWO_TO_THE_32 && FewConnections(Run(prod, supported, actions))
    ensures
      var s := Run(prod, supported, actions);
      LookupSession(s.g, fd) == if fd in s.holder then Some(s.holder[fd]) else None
  {
    RunKeeps(prod, supported, actions);
    HoldersAreRegistered(prod, supported, actions);
    hide Run, QueueInv, OwnersInv, ExchangeInv;
    HasItsSession(Run(prod, supported, actions), fd);
  }

  lemma HasItsSession(s: System, fd: Fd)
    requires SessionsInv(s) && FewConnections(s) && s.holder.Keys == s.g.right.Keys
    ensures LookupSession(s.g, fd) == if fd in s.holder then Some(s.holder[fd]) else None
  {
    if fd in s.holder {
      LowBits(s.holder[fd]);
    }
  }

  /** With few connections no session is refused. */
  lemma {:induction false} HoldersAreRegistered(prod: bool, supported: set<string>, actions: seq<Action>)
    requires Run(prod, supported, actions).accepted < TWO_TO_THE_32 && FewConnections(Run(prod, supported, actions))
    ensures Run(prod, supported, actions).holder.Keys == Run(prod, supported, actions).g.right.Keys
  {
    if actions != [] {
      var rest, a := actions[..|actions| - 1], actions[|actions| - 1];
      CountsGrow(prod, supported, actions);
      HoldersAreRegistered(prod, supported, rest);
      RunKeeps(prod, supported, rest);
      var s := Run(prod, supported, rest);
      if Enabled(s, a) {
        StepRegisters(s, prod, supported, a);
      }
    }
  }

  lemma StepRegisters(s: System, prod: bool, supported: set<string>, a: Action)
    requires Inv(s, supported) && Enabled(s, a) && FewConnections(Do(s, prod, supported, a))
    requires s.holder.Keys == s.g.right.Keys
    ensures Do(s, prod, supported, a).holder.Keys == Do(s, prod, supported, a).g.right.Keys
  {
    hide Inv, Connected, Taken, OrderMatched, FillReported, Accepts, NextId, ValidateOrderData, OrderTaken;
    match a
    case Register =>
      ArrivingHoldsNothing(s, supported);
      FreshSession(s, supported, s.arriving.value);
    case Message(_, _, _, _) => MessageKeepsSessions(s.g, supported, a);
    case _ =>
  }

  lemma ArrivingHoldsNothing(s: System, supported: set<string>)
    requires Inv(s, supported)
    ensures s.arriving.Some? ==> s.arriving.value !in s.holder
  {
    hide SessionsInv, OwnersInv, QueueInv, ExchangeInv;
  }

  lemma MessageKeepsSessions(g: Gateway, supported: set<string>, a: Action)
    requires a.Message?
    ensures
      var g' := Handled(g, supported, a.fd, a.request, a.isOpen, a.room);
      g'.left == g.left && g'.right == g.right && g'.allTimeCxns == g.allTimeCxns
  {
    hide ValidateOrderData;
  }

  lemma FreshSession(s: System, supported: set<string>, fd: Fd)
    requires Inv(s, supported) && fd !in s.holder && s.cxns + 1 < TWO_TO_THE_16
    ensures Connected(s.g, fd).right == s.g.right[fd := s.cxns + 1]
  {
    var session := s.cxns + 1;
    forall other | other in s.g.left
      ensures other != session
    {
      var fd' := s.g.left[other];
      assert fd' in s.g.right && s.g.right[fd'] == other;
      LowBits(s.holder[fd']);
    }
  }

  // ----- Hang-ups between a connection's arrival and its registration

  /** Was a session ever registered for a connection whose hang-up had already been noticed? */
  predicate Strayed(prod: bool, supported: set<string>, actions: seq<Action>) {
    actions != [] &&
    var rest, a := actions[..|actions| - 1], actions[|actions| - 1];
    var s := Run(prod, supported, rest);
    Strayed(prod, supported, rest) || (a.Register? && s.arriving.Some? && s.arriving.value !in s.live)
  }

  predicate HoldersLive(s: System) {
    forall fd :: fd in s.holder ==> fd in s.live
  }

  lemma {:induction false} HoldersAreLiveIff(prod: bool, supported: set<string>, actions: seq<Action>)
    requires Run(prod, supported, actions).accepted < TWO_TO_THE_32
    ensures HoldersLive(Run(prod, supported, actions)) <==> !Strayed(prod, supported, actions)
  {
    if actions != [] {
      var rest, a := actions[..|actions| - 1], actions[|actions| - 1];
      CountsGrow(prod, supported, actions);
      HoldersAreLiveIff(prod, supported, rest);
      RunKeeps(prod, supported, rest);
      hide Run, Strayed, Inv;
      StrayedMore(prod, supported, actions);
      StraysStep(Run(prod, supported, rest), prod, supported, a);
    }
  }

  lemma StrayedMore(prod: bool, supported: set<string>, actions: seq<Action>)
    requires actions != []
    ensures
      var rest, a := actions[..|actions| - 1], actions[|actions| - 1];
      var s := Run(prod, supported, rest);
      && Run(prod, supported, actions) == Next(s, prod, supported, a)
      && (Strayed(prod, supported, actions) <==>
            Strayed(prod, supported, rest) || (a.Register? && s.arriving.Some? && s.arriving.value !in s.live))
  {
  }

  lemma StraysStep(s: System, prod: bool, supported: set<string>, a: Action)
    requires LiveInv(s)
    ensures
      var s' := Next(s, prod, supported, a);
      HoldersLive(s') <==> HoldersLive(s) && !(a.Register? && s.arriving.Some? && s.arriving.value !in s.live)
  {
    hide Connected, Disconnected, Handled, Accepts, NextId, Taken, OrderMatched, FillReported, OrderTaken;
    var s' := Next(s, prod, supported, a);
    match a
    case Arrive(fd) =>
    case Register =>
    case Disconnect(fd) =>
      if fd in s.live && HoldersLive(s') {
        assert forall other :: other in s.holder && other != fd ==> other in s'.holder;
      }
    case _ => assert s'.holder == s.holder && s'.live == s.live;
  }

  /**
   * With few connections: every descriptor has the session of the live connection on it, once that is registered, and
   * none has another, if and only if no hang-up was noticed before the registration.
   */
  lemma EveryConnectionHasItsSession(prod: bool, supported: set<string>, actions: seq<Action>)
    requires Run(prod, supported, actions).accepted < TWO_TO_THE_32 && FewConnections(Run(prod, supported, actions))
    ensures
      var s := Run(prod, supported, actions);
      (forall fd ::
         LookupSession(s.g, fd) == if fd in s.live && s.arriving != Some(fd) then Some(s.live[fd]) else None) <==>
        !Strayed(prod, supported, actions)
  {
    var s := Run(prod, supported, actions);
    RunKeeps(prod, supported, actions);
    HoldersAreLiveIff(prod, supported, actions);
    hide Run, Strayed, SessionsInv, OwnersInv, QueueInv, ExchangeInv, LookupSession;
    forall fd
      ensures LookupSession(s.g, fd) == if fd in s.holder then Some(s.holder[fd]) else None
    {
      SessionsAreOfHolders(prod, supported, actions, fd);
    }
    HoldersAreSessions(s);
  }

  lemma HoldersAreSessions(s: System)
    requires LiveInv(s)
    requires forall fd :: LookupSession(s.g, fd) == if fd in s.holder then Some(s.holder[fd]) else None
    ensures HoldersLive(s) <==>
      forall fd :: LookupSession(s.g, fd) == if fd in s.live && s.arriving != Some(fd) then Some(s.live[fd]) else None
  {
    hide LookupSession;
    if HoldersLive(s) {
      forall fd
        ensures LookupSession(s.g, fd) == if fd in s.live && s.arriving != Some(fd) then Some(s.live[fd]) else None
      {
        assert LookupSession(s.g, fd) == if fd in s.holder then Some(s.holder[fd]) else None;
      }
    } else {
      var fd :| fd in s.holder && fd !in s.live;
      assert LookupSession(s.g, fd) == Some(s.holder[fd]);
    }
  }

  /** Nothing ever removes a session that was registered too late. */
  lemma {:induction false} StraysStay(prod: bool, supported: set<string>, actions: seq<Action>, more: seq<Action>,
                                      fd: Fd)
    requires Run(prod, supported, actions + more).accepted < TWO_TO_THE_32
    requires var s := Run(prod, supported, actions); fd in s.holder && fd !in s.live
    ensures
      var s, s' := Run(prod, supported, actions), Run(prod, supported, actions + more);
      fd in s'.holder && s'.holder[fd] == s.holder[fd] && fd !in s'.live
  {
    if more == [] {
      assert actions + more == actions;
    } else {
      hide SessionsInv, LiveInv, OwnersInv, QueueInv, ExchangeInv, Next, Run;
      var last, before := |more| - 1, actions + more[..|more| - 1];
      assert actions + more == before + [more[last]];
      OneMoreAction(prod, supported, before, more[last]);
      assert (actions + more)[..|actions + more| - 1] == before;
      CountsGrow(prod, supported, actions + more);
      StraysStay(prod, supported, actions, more[..last], fd);
      RunKeeps(prod, supported, before);
      StrayStep(Run(prod, supported, before), prod, supported, more[last], fd);
    }
  }

  lemma StrayStep(s: System, prod: bool, supported: set<string>, a: Action, fd: Fd)
    requires LiveInv(s) && fd in s.holder && fd !in s.live
    ensures
      var s' := Next(s, prod, supported, a);
      fd in s'.holder && s'.holder[fd] == s.holder[fd] && fd !in s'.live
  {
    hide Connected, Disconnected, Handled, Accepts, NextId, Taken, OrderMatched, FillReported, OrderTaken;
  }

  /** Connection 1 hangs up at once: its session stays on its dead descriptor. */
  lemma SessionStrays(prod: bool, supported: set<string>)
    ensures
      var s := Run(prod, supported, [Arrive(1), Disconnect(1), Register]);
      s.live == map[] && s.holder == map[1 := 1] && LookupSession(s.g, 1) == Some(1)
  {
    var arrive, leave := [Arrive(1)], [Arrive(1), Disconnect(1)];
    assert arrive[..0] == [] && leave[..1] == arrive && [Arrive(1), Disconnect(1), Register][..2] == leave;
    var s := Initial(supported);
    assert Run(prod, supported, arrive) == s.(arriving := Some(1), live := map[1 := 1]);
    assert Run(prod, supported, leave) == s.(arriving := Some(1), live := map[]);
  }

  /** An accepted order gets an id never given out before, that unpacks to the connection that sent it. */
  lemma OrderIdsAreNew(prod: bool, supported: set<string>, actions: seq<Action>, a: Action)
    requires Run(prod, supported, actions).accepted + 1 < TWO_TO_THE_32
    requires Accepts(Run(prod, supported, actions), supported, a)
    ensures
      var s := Run(prod, supported, actions);
      && a.fd in s.holder && NextId(s, a.fd) !in s.owner
      && SessionOf(NextId(s, a.fd)) == SessionOfConnection(s.holder[a.fd])
      && Run(prod, supported, actions + [a]).owner == s.owner[NextId(s, a.fd) := s.holder[a.fd]]
  {
    RunKeeps(prod, supported, actions);
    NextIdIsNew(Run(prod, supported, actions), supported, a.fd);
    assert (actions + [a])[..|actions|] == actions;
  }

  /**
   * A message about an order goes to the descriptor of the connection that placed it, as long as that holds one, and
   * is dropped otherwise.  If it is live, it does hold one.
   */
  lemma MessagesGoHome(prod: bool, supported: set<string>, actions: seq<Action>, id: OrderId, fd: Fd)
    requires Run(prod, supported, actions).accepted < TWO_TO_THE_32 && FewConnections(Run(prod, supported, actions))
    requires id in Run(prod, supported, actions).owner
    ensures
      var s := Run(prod, supported, actions);
      && (DestinationFd(s.g, id) == Some(fd) <==> fd in s.holder && s.holder[fd] == s.owner[id])
      && (fd in s.live && s.live[fd] == s.owner[id] ==> DestinationFd(s.g, id) == Some(fd))
  {
    RunKeeps(prod, supported, actions);
    SessionsAreOfHolders(prod, supported, actions, fd);
    GoesHome(Run(prod, supported, actions), id, fd);
  }

  lemma GoesHome(s: System, id: OrderId, fd: Fd)
    requires OneToOne(s.g) && OwnersInv(s) && id in s.owner && FewConnections(s)
    requires LookupSession(s.g, fd) == if fd in s.holder then Some(s.holder[fd]) else None
    ensures DestinationFd(s.g, id) == Some(fd) <==> fd in s.holder && s.holder[fd] == s.owner[id]
  {
    LookupsAgree(s.g, fd, id);
    LowBits(s.owner[id]);
  }

  /** Without that bound: to a connection whose number is the placing one's up to multiples of 2^16. */
  lemma MessagesGoToCongruent(prod: bool, supported: set<string>, actions: seq<Action>, id: OrderId, fd: Fd)
    requires Run(prod, supported, actions).accepted < TWO_TO_THE_32
    requires id in Run(prod, supported, actions).owner && fd in Run(prod, supported, actions).g.right
    ensures
      var s := Run(prod, supported, actions);
      && fd in s.holder
      && (DestinationFd(s.g, id) == Some(fd) <==> (s.holder[fd] - s.owner[id]) % TWO_TO_THE_16 == 0)
  {
    RunKeeps(prod, supported, actions);
    var s := Run(prod, supported, actions);
    LookupsAgree(s.g, fd, id);
    SessionIdsRepeat(s.holder[fd], s.owner[id]);
  }

  /** Every notice is about an order that some connection placed. */
  lemma NoticesAreOfOwnedOrders(prod: bool, supported: set<string>, actions: seq<Action>, i: nat)
    requires Run(prod, supported, actions).accepted < TWO_TO_THE_32
    requires i < |Run(prod, supported, actions).x.toServer|
    ensures Run(prod, supported, actions).x.toServer[i].orderId in Run(prod, supported, actions).owner
  {
    RunKeeps(prod, supported, actions);
  }

  /** What a broker asks to be cancelled is marked with its own session. */
  lemma CancelIsMarked(prod: bool, supported: set<string>, actions: seq<Action>, a: Action)
    requires Run(prod, supported, actions).accepted < TWO_TO_THE_32
    requires a.Message? && a.request.Cancel? && a.room
    ensures
      var s, s' := Run(prod, supported, actions), Run(prod, supported, actions + [a]);
      if a.fd in s.g.right then
        a.fd in s.holder &&
        s'.g.toExchange == s.g.toExchange + [CancelOrder(SessionOfConnection(s.holder[a.fd]), a.request.orderNum)]
      else s'.g == s.g
  {
    RunKeeps(prod, supported, actions);
    assert (actions + [a])[..|actions|] == actions;
  }

  /**
   * Taking a cancel removes at most the order it names, and only if the connection that placed it has the number of
   * the one it is marked with, up to multiples of 2^16.
   */
  lemma CancelRemovesOnlyCongruent(prod: bool, supported: set<string>, actions: seq<Action>, name: string,
                                   id: OrderId, c: nat)
    requires Run(prod, supported, actions).accepted < TWO_TO_THE_32
    requires Run(prod, supported, actions).g.toExchange != []
    requires
      var msg := Run(prod, supported, actions).g.toExchange[0];
      msg.CancelOrder? && msg.session == SessionOfConnection(c)
    requires RestsIn(Run(prod, supported, actions).x, name, id)
    requires !RestsIn(Run(prod, supported, actions + [Take(Queued)]).x, name, id)
    ensures
      var s := Run(prod, supported, actions);
      && id == GenerateOrderId(s.g.toExchange[0].session, s.g.toExchange[0].orderNum)
      && id in s.owner && (s.owner[id] - c) % TWO_TO_THE_16 == 0
  {
    hide Run, Inv, ExchangeFits, CancelTaken, GenerateOrderId, RestsIn, SessionOfConnection;
    RunKeeps(prod, supported, actions);
    OneMoreAction(prod, supported, actions, Take(Queued));
    CancelsCongruent(Run(prod, supported, actions), supported, name, id, c);
  }

  lemma CancelsCongruent(s: System, supported: set<string>, name: string, id: OrderId, c: nat)
    requires Inv(s, supported) && s.g.toExchange != [] && s.g.toExchange[0].CancelOrder?
    requires s.g.toExchange[0].session == SessionOfConnection(c) && RestsIn(s.x, name, id)
    requires var msg := s.g.toExchange[0]; !RestsIn(CancelTaken(s.x, msg.session, msg.orderNum), name, id)
    ensures id == GenerateOrderId(s.g.toExchange[0].session, s.g.toExchange[0].orderNum)
    ensures id in s.owner && (s.owner[id] - c) % TWO_TO_THE_16 == 0
  {
    var msg := s.g.toExchange[0];
    hide SessionsInv, LiveInv, QueueInv, ExchangeFits, CancelTaken, GenerateOrderId, RestsIn, SessionOf,
      SessionOfConnection;
    CancelLeavesOthers(s.x, msg.session, msg.orderNum, name, id);
    LowBits(c);
    Unpacks(msg.session, msg.orderNum);
    SessionIdsRepeat(s.owner[id], c);
  }

  lemma CancelLeavesOthers(x: ExchangeState, session: SessionId, orderNum: nat, name: string, id: OrderId)
    requires ExchangeFits(x) && RestsIn(x, name, id)
    ensures id in x.lookup
    ensures !RestsIn(CancelTaken(x, session, orderNum), name, id) ==> id == GenerateOrderId(session, orderNum)
  {
    CancelIsExact(x, session, orderNum);
    RestsOnlyWhereLookedUp(x, name, id);
    var cancelled := GenerateOrderId(session, orderNum);
    assert EngineFits(x.engines[name], name, x.lookup);
    hide ExchangeFits, CancelTaken, GenerateOrderId;
    if id != cancelled {
      WithoutIds(x.engines[name].book, cancelled);
      RestingIsInIds(x.engines[name].book, id);
      RestingIsInIds(Without(x.engines[name].book, cancelled), id);
    }
  }

  /** With few connections, only an order of the very connection it is marked with. */
  lemma CancelRemovesOnlyOwn(prod: bool, supported: set<string>, actions: seq<Action>, name: string, id: OrderId,
                             c: nat)
    requires Run(prod, supported, actions).accepted < TWO_TO_THE_32 && FewConnections(Run(prod, supported, actions))
    requires Run(prod, supported, actions).g.toExchange != [] && c < TWO_TO_THE_16
    requires
      var msg := Run(prod, supported, actions).g.toExchange[0];
      msg.CancelOrder? && msg.session == SessionOfConnection(c)
    requires RestsIn(Run(prod, supported, actions).x, name, id)
    requires !RestsIn(Run(prod, supported, actions + [Take(Queued)]).x, name, id)
    ensures
      var s := Run(prod, supported, actions);
      && id == GenerateOrderId(s.g.toExchange[0].session, s.g.toExchange[0].orderNum)
      && id in s.owner && s.owner[id] == c
  {
    hide Run, SessionsInv, LiveInv, QueueInv, ExchangeInv, GenerateOrderId, SessionOf, SessionOfConnection, OrderNumOf,
      RestsIn;
    CancelRemovesOnlyCongruent(prod, supported, actions, name, id, c);
    RunKeeps(prod, supported, actions);
    SameIfCongruent(Run(prod, supported, actions).owner[id], c);
  }

  lemma SameIfCongruent(m: nat, n: nat)
    requires m < TWO_TO_THE_16 && n < TWO_TO_THE_16 && (m - n) % TWO_TO_THE_16 == 0
    ensures m == n
  {
  }

  /**
   * What the exchange dequeues ends it if and only if it is an order that its engine's queue refuses while logging is
   * on: every order that passes the gateway is one that can be made, for an instrument that has an engine.
   */
  lemma ExchangeGoesOn(prod: bool, supported: set<string>, actions: seq<Action>, attempt: Attempt)
    requires Run(prod, supported, actions).accepted < TWO_TO_THE_32
    requires Run(prod, supported, actions).g.toExchange != []
    ensures Enabled(Run(prod, supported, actions), Take(attempt)) <==>
      (Run(prod, supported, actions).g.toExchange[0].NewOrder? ==> attempt != Refused(true))
  {
    RunKeeps(prod, supported, actions);
    var s := Run(prod, supported, actions);
    assert MessageFits(s, s.g.toExchange[0]);
  }

  /** An order rests in at most one engine. */
  lemma RestsInOneEngine(prod: bool, supported: set<string>, actions: seq<Action>, m: string, n: string, id: OrderId)
    requires Run(prod, supported, actions).accepted < TWO_TO_THE_32
    requires RestsIn(Run(prod, supported, actions).x, m, id) && RestsIn(Run(prod, supported, actions).x, n, id)
    ensures m == n && id in Run(prod, supported, actions).owner
  {
    RunKeeps(prod, supported, actions);
    RestsOnlyWhereLookedUp(Run(prod, supported, actions).x, m, id);
    RestsOnlyWhereLookedUp(Run(prod, supported, actions).x, n, id);
  }
}
