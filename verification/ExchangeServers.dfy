/** The gateway: sessions, validation, and the routing of requests and notifications. */
module ExchangeServers {
  import opened Options
  import opened TradingTypes
  import opened Ticks
  import opened OrderIds

  type Fd = int

  const MIN_ALLOWED_QTY: nat := 0
  const MAX_ALLOWED_QTY: nat := 500
  const LIMIT_CODE: nat := 0
  const MARKET_CODE: nat := 1
  const BYTE: nat := 256

  /** An order as a broker sends it; codes are 32-bit numbers read as bytes. */
  datatype OrderRequest = OrderRequest(
    instrument: string, qty: nat, price: Price, sideCode: nat, priceCode: nat, orderId: OrderId)

  datatype Request = Place(order: OrderRequest) | Cancel(orderNum: nat) | Other

  datatype ExchangeMsg = NewOrder(order: OrderRequest) | CancelOrder(session: SessionId, orderNum: nat)

  datatype Error =
    | ExchangeClosed | NotAscii | NoInstrument | NotTraded | BadPriceType
    | NoPrice | PriceTooLow | PriceTooHigh | BadQty

  datatype BrokerMsg = Reject(error: Error) | Ack(orderId: OrderId) | About(orderId: OrderId)

  datatype BrokerBound = BrokerBound(msg: BrokerMsg, fd: Fd)

  // ----- Validation

  predicate IsAscii(s: string) {
    forall i :: 0 <= i < |s| ==> s[i] <= 127 as char
  }

  predicate IsLimit(order: OrderRequest) {
    order.priceCode % BYTE == LIMIT_CODE
  }

  /** An instrument that the exchange trades. */
  predicate IsTraded(supported: set<string>, instrument: string) {
    IsAscii(instrument) && instrument != "" && instrument in supported
  }

  predicate HasPriceType(order: OrderRequest) {
    order.priceCode % BYTE == LIMIT_CODE || order.priceCode % BYTE == MARKET_CODE
  }

  /**
   * When an order deserves a complaint: what it names is wrong with the order, and everything that is looked at
   * before is right.
   */
  predicate Deserves(error: Error, isOpen: bool, supported: set<string>, order: OrderRequest) {
    var limitOfTraded := isOpen && IsTraded(supported, order.instrument) && IsLimit(order);
    match error
    case ExchangeClosed => !isOpen
    case NotAscii => isOpen && !IsAscii(order.instrument)
    case NoInstrument => isOpen && order.instrument == ""
    case NotTraded =>
      isOpen && IsAscii(order.instrument) && order.instrument != "" && order.instrument !in supported
    case BadPriceType => isOpen && IsTraded(supported, order.instrument) && !HasPriceType(order)
    case NoPrice => limitOfTraded && order.price <= 0.0
    case PriceTooLow => limitOfTraded && 0.0 < order.price < MIN_ALLOWED_PRICE
    case PriceTooHigh => limitOfTraded && MAX_ALLOWED_PRICE < order.price
    case BadQty =>
      && isOpen && IsTraded(supported, order.instrument) && HasPriceType(order)
      && (IsLimit(order) ==> ValidLimitPrice(order.price)) && MAX_ALLOWED_QTY < order.qty
  }

  /** The complaint about an order, if there is any: exactly the one that it deserves. */
  function ValidateOrderData(isOpen: bool, supported: set<string>, order: OrderRequest): (error: Option<Error>)
    ensures error.None? <==> Acceptable(isOpen, supported, order)
    ensures forall e :: error == Some(e) <==> Deserves(e, isOpen, supported, order)
  {
    if !isOpen then Some(ExchangeClosed)
    else if !IsAscii(order.instrument) then Some(NotAscii)
    else if order.instrument == "" then Some(NoInstrument)
    else if order.instrument !in supported then Some(NotTraded)
    else if order.priceCode % BYTE != LIMIT_CODE && order.priceCode % BYTE != MARKET_CODE then Some(BadPriceType)
    else if IsLimit(order) && order.price <= 0.0 then Some(NoPrice)
    else if IsLimit(order) && order.price < MIN_ALLOWED_PRICE then Some(PriceTooLow)
    else if IsLimit(order) && order.price > MAX_ALLOWED_PRICE then Some(PriceTooHigh)
    else if order.qty < MIN_ALLOWED_QTY || order.qty > MAX_ALLOWED_QTY then Some(BadQty)
    else None
  }

  predicate Acceptable(isOpen: bool, supported: set<string>, order: OrderRequest) {
    && isOpen && order.instrument in supported && order.instrument != "" && IsAscii(order.instrument)
    && order.qty <= MAX_ALLOWED_QTY
    && if IsLimit(order) then ValidLimitPrice(order.price) else order.priceCode % BYTE == MARKET_CODE
  }

  // ----- The gateway's state

  /** Left and right are the two views of the bimap from session to descriptor. */
  datatype Gateway = Gateway(
    left: map<SessionId, Fd>,
    right: map<Fd, SessionId>,
    allTimeCxns: nat,
    totalOrders: nat,
    toExchange: seq<ExchangeMsg>,
    brokerBound: seq<BrokerBound>)

  predicate OneToOne(g: Gateway) {
    && (forall s :: s in g.left ==> g.left[s] in g.right && g.right[g.left[s]] == s)
    && (forall fd :: fd in g.right ==> g.right[fd] in g.left && g.left[g.right[fd]] == fd)
  }

  /** A bimap refuses a pair of which either half is already there. */
  function Connected(g: Gateway, fd: Fd): Gateway {
    var count := (g.allTimeCxns + 1) % TWO_TO_THE_32;
    var session := count % TWO_TO_THE_16;
    if session in g.left || fd in g.right then g.(allTimeCxns := count)
    else g.(allTimeCxns := count, left := g.left[session := fd], right := g.right[fd := session])
  }

  /** A descriptor without a session makes the lookup throw. */
  function Disconnected(g: Gateway, fd: Fd): Option<Gateway> {
    if fd in g.right then Some(g.(left := g.left - {g.right[fd]}, right := g.right - {fd})) else None
  }

  function LookupSession(g: Gateway, fd: Fd): Option<SessionId> {
    if fd in g.right then Some(g.right[fd]) else None
  }

  function DestinationFd(g: Gateway, id: OrderId): Option<Fd> {
    if SessionOf(id) in g.left then Some(g.left[SessionOf(id)]) else None
  }

  /** A notification about an order goes to the descriptor of its session, or is dropped. */
  function Notified(g: Gateway, id: OrderId, msg: BrokerMsg): Gateway {
    match DestinationFd(g, id)
    case None => g
    case Some(fd) => g.(brokerBound := g.brokerBound + [BrokerBound(msg, fd)])
  }

  /** The queue to the exchange takes a message only if it has room. */
  function Forwarded(g: Gateway, msg: ExchangeMsg, room: bool): Gateway {
    if room then g.(toExchange := g.toExchange + [msg]) else g
  }

  function NextOrderNum(g: Gateway): nat {
    (g.totalOrders + 1) % TWO_TO_THE_32
  }

  /** One message of a broker. */
  function Handled(g: Gateway, supported: set<string>, fd: Fd, request: Request, isOpen: bool, room: bool): Gateway {
    match LookupSession(g, fd)
    case None => g
    case Some(session) =>
      match request
      case Other => g
      case Cancel(num) => Forwarded(g, CancelOrder(session, num), room)
      case Place(order) =>
        var error := ValidateOrderData(isOpen, supported, order);
        if error.Some? then g.(brokerBound := g.brokerBound + [BrokerBound(Reject(error.value), fd)])
        else
          var num := NextOrderNum(g);
          var id := GenerateOrderId(session, num);
          var g' := Forwarded(g.(totalOrders := num), NewOrder(order.(orderId := id)), room);
          Notified(g', id, Ack(id))
  }

  // ----- What the sessions keep

  lemma ConnectedOneToOne(g: Gateway, fd: Fd)
    requires OneToOne(g)
    ensures OneToOne(Connected(g, fd))
  {
  }

  lemma DisconnectedOneToOne(g: Gateway, fd: Fd)
    requires OneToOne(g) && fd in g.right
    ensures OneToOne(Disconnected(g, fd).value)
  {
  }

  /** In a one-to-one map the two lookups undo each other. */
  lemma LookupsAgree(g: Gateway, fd: Fd, id: OrderId)
    requires OneToOne(g)
    ensures LookupSession(g, fd) == Some(SessionOf(id)) <==> DestinationFd(g, id) == Some(fd)
  {
  }

  /** A connection gets a session exactly when its descriptor has none and its number is free. */
  lemma ConnectedIff(g: Gateway, fd: Fd)
    requires OneToOne(g)
    ensures
      var session := SessionOfConnection(g.allTimeCxns + 1);
      LookupSession(Connected(g, fd), fd) == Some(session) <==>
        (fd !in g.right && session !in g.left) || LookupSession(g, fd) == Some(session)
  {
  }

  // ----- What an answer has to do with its request

  /** An acknowledged id is that of this session and number; a rejected order deserves the complaint about it. */
  predicate IsAnswer(b: BrokerBound, fd: Fd, session: SessionId, num: nat, isOpen: bool, supported: set<string>,
                     order: OrderRequest) {
    && b.fd == fd
    && if Acceptable(isOpen, supported, order)
       then b.msg.Ack? && SessionOf(b.msg.orderId) == session && OrderNumOf(b.msg.orderId) == num
       else b.msg.Reject? && Deserves(b.msg.error, isOpen, supported, order)
  }

  predicate IsForwarded(msg: ExchangeMsg, session: SessionId, num: nat, request: Request) {
    match request
    case Place(order) =>
      && msg.NewOrder? && msg.order == order.(orderId := msg.order.orderId)
      && SessionOf(msg.order.orderId) == session && OrderNumOf(msg.order.orderId) == num
    case Cancel(orderNum) => msg == CancelOrder(session, orderNum)
    case Other => false
  }

  /** What a request of a session may change. */
  ghost predicate Answered(g: Gateway, g': Gateway, supported: set<string>, fd: Fd, session: SessionId,
                           request: Request, isOpen: bool, room: bool) {
    var accepted := request.Place? && Acceptable(isOpen, supported, request.order);
    && g' == g.(totalOrders := g'.totalOrders, toExchange := g'.toExchange, brokerBound := g'.brokerBound)
    && g'.totalOrders == (if accepted then NextOrderNum(g) else g.totalOrders)
    && (if request.Place? then
          |g'.brokerBound| == |g.brokerBound| + 1 && g.brokerBound <= g'.brokerBound &&
          IsAnswer(g'.brokerBound[|g.brokerBound|], fd, session, g'.totalOrders, isOpen, supported,
                   request.order)
        else g'.brokerBound == g.brokerBound)
    && (if room && (accepted || request.Cancel?) then
          |g'.toExchange| == |g.toExchange| + 1 && g.toExchange <= g'.toExchange &&
          IsForwarded(g'.toExchange[|g.toExchange|], session, g'.totalOrders, request)
        else g'.toExchange == g.toExchange)
  }

  // ----- The gateway as the program has it

  class ExchangeServer {
    const supportedInstruments: set<string>
    var sessionsLeft: map<SessionId, Fd>
    var sessionsRight: map<Fd, SessionId>
    var allTimeCxns: nat
    var totalOrders: nat
    var serverToExchangeQueue: seq<ExchangeMsg>
    var brokerBoundMsgs: seq<BrokerBound>

    function State(): Gateway
      reads this
    {
      Gateway(sessionsLeft, sessionsRight, allTimeCxns, totalOrders, serverToExchangeQueue, brokerBoundMsgs)
    }

    ghost predicate Valid()
      reads this
    {
      OneToOne(State()) && forall session :: session in sessionsLeft ==> session < TWO_TO_THE_16
    }

    constructor (supportedInstruments: set<string>)
      ensures this.supportedInstruments == supportedInstruments
      ensures State() == Gateway(map[], map[], 0, 0, [], []) && Valid()
    {
      this.supportedInstruments := supportedInstruments;
      sessionsLeft, sessionsRight, allTimeCxns, totalOrders := map[], map[], 0, 0;
      serverToExchangeQueue, brokerBoundMsgs := [], [];
    }

    method OnNewCxn(newCxnFd: Fd)
      requires Valid()
      modifies this
      ensures State() == Connected(old(State()), newCxnFd) && Valid()
    {
      ConnectedOneToOne(State(), newCxnFd);
      allTimeCxns := (allTimeCxns + 1) % TWO_TO_THE_32;
      var newCxnId := allTimeCxns % TWO_TO_THE_16;
      if newCxnId !in sessionsLeft && newCxnFd !in sessionsRight {
        sessionsLeft := sessionsLeft[newCxnId := newCxnFd];
        sessionsRight := sessionsRight[newCxnFd := newCxnId];
      }
    }

    /** Thrown says that the descriptor had no session. */
    method OnBrokerDiscxn(disconnectingCxnFd: Fd) returns (thrown: bool)
      requires Valid()
      modifies this
      ensures Valid()
      ensures thrown <==> LookupSession(old(State()), disconnectingCxnFd).None?
      ensures State() == if thrown then old(State()) else Disconnected(old(State()), disconnectingCxnFd).value
    {
      if disconnectingCxnFd !in sessionsRight {
        return true;
      }
      DisconnectedOneToOne(State(), disconnectingCxnFd);
      var sessionId := sessionsRight[disconnectingCxnFd];
      sessionsRight := sessionsRight - {disconnectingCxnFd};
      sessionsLeft := sessionsLeft - {sessionId};
      thrown := false;
    }

    /** The notification is for the one descriptor whose session the id names, and for nobody if none has it. */
    method EnqueueNotification(id: OrderId, msg: BrokerMsg)
      requires Valid()
      modifies this`brokerBoundMsgs
      ensures Valid() && State() == Notified(old(State()), id, msg)
      ensures forall fd :: LookupSession(State(), fd) == Some(SessionOf(id)) ==>
        brokerBoundMsgs == old(brokerBoundMsgs) + [BrokerBound(msg, fd)]
      ensures (forall fd :: LookupSession(State(), fd) != Some(SessionOf(id))) ==>
        brokerBoundMsgs == old(brokerBoundMsgs)
    {
      var sessionId := SessionOf(id);
      if sessionId in sessionsLeft {
        assert LookupSession(State(), sessionsLeft[sessionId]) == Some(sessionId);
        brokerBoundMsgs := brokerBoundMsgs + [BrokerBound(msg, sessionsLeft[sessionId])];
      }
    }

    method AddToExchangeQueue(msg: ExchangeMsg, room: bool)
      modifies this`serverToExchangeQueue
      ensures State() == Forwarded(old(State()), msg, room)
    {
      if room {
        serverToExchangeQueue := serverToExchangeQueue + [msg];
      }
    }

    /**
     * The body of the loop over broker messages.  The sender of an order is told exactly one thing, on the
     * descriptor it sent from: a complaint if the order is not acceptable, else an id that unpacks to its own
     * session and a number one higher than the last.  The exchange gets at most one message, marked with that
     * session too.
     */
    method ProcessSockMsg(cxnFd: Fd, request: Request, isOpen: bool, room: bool)
      requires Valid()
      modifies this`totalOrders, this`serverToExchangeQueue, this`brokerBoundMsgs
      ensures Valid() && State() == Handled(old(State()), supportedInstruments, cxnFd, request, isOpen, room)
      ensures match LookupSession(State(), cxnFd)
        case None => State() == old(State())
        case Some(session) =>
          Answered(old(State()), State(), supportedInstruments, cxnFd, session, request, isOpen, room)
    {
      if cxnFd !in sessionsRight {
        return;
      }
      var sessionId := sessionsRight[cxnFd];
      match request
      case Place(order) =>
        var error := ValidateOrderData(isOpen, supportedInstruments, order);
        if error.Some? {
          brokerBoundMsgs := brokerBoundMsgs + [BrokerBound(Reject(error.value), cxnFd)];
        } else {
          totalOrders := (totalOrders + 1) % TWO_TO_THE_32;
          var orderId := GenerateOrderId(sessionId, totalOrders);
          Unpacks(sessionId, totalOrders);
          AddToExchangeQueue(NewOrder(order.(orderId := orderId)), room);
          EnqueueNotification(orderId, Ack(orderId));
        }
      case Cancel(orderNum) => AddToExchangeQueue(CancelOrder(sessionId, orderNum), room);
      case Other =>
    }
  }
}
