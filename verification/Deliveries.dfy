/**
 * Who gets what the gateway sends.  Beside every message queued for a broker stands the connection that held its
 * descriptor when it was queued; the descriptor may be held by another one later.
 */
module Deliveries {
  import opened Options
  import opened TradingTypes
  import opened PriceTime
  import opened OrderIds
  import opened ExchangeServers
  import opened Exchanges
  import opened Routing

  type Recipient = Option<nat>

  function HolderOf(s: System, fd: Fd): Recipient {
    if fd in s.holder then Some(s.holder[fd]) else None
  }

  /** The recipients of the messages that one action adds. */
  function NewRecipients(s: System, s': System): seq<Recipient> {
    if |s'.g.brokerBound| <= |s.g.brokerBound| then []
    else [HolderOf(s', s'.g.brokerBound[|s'.g.brokerBound| - 1].fd)]
  }

  /** One for each message of a run. */
  function Recipients(prod: bool, supported: set<string>, actions: seq<Action>): seq<Recipient> {
    if actions == [] then []
    else
      var rest := actions[..|actions| - 1];
      Recipients(prod, supported, rest) + NewRecipients(Run(prod, supported, rest), Run(prod, supported, actions))
  }

  /** The message is for some connection, and if it is about an order, for one with the owner's session. */
  predicate Reaches(s: System, msg: BrokerMsg, recipient: Recipient) {
    && recipient.Some? && 1 <= recipient.value <= s.cxns
    && (!msg.Reject? ==> msg.orderId in s.owner && (recipient.value - s.owner[msg.orderId]) % TWO_TO_THE_16 == 0)
  }

  ghost predicate AllReach(s: System, recipients: seq<Recipient>) {
    && |recipients| == |s.g.brokerBound|
    && forall i :: 0 <= i < |recipients| ==> Reaches(s, s.g.brokerBound[i].msg, recipients[i])
  }

  /** What every action does: it queues at most one message, and forgets neither messages nor owners. */
  ghost predicate Grows(s: System, s': System) {
    && s.cxns <= s'.cxns && s.owner.Keys <= s'.owner.Keys
    && (forall id :: id in s.owner ==> s'.owner[id] == s.owner[id])
    && s.g.brokerBound <= s'.g.brokerBound && |s'.g.brokerBound| <= |s.g.brokerBound| + 1
  }

  /** The message that an action adds, if any, reaches somebody it may. */
  ghost predicate LastReaches(s: System, s': System) {
    |s'.g.brokerBound| > |s.g.brokerBound| ==>
      var last := s'.g.brokerBound[|s.g.brokerBound|]; Reaches(s', last.msg, HolderOf(s', last.fd))
  }

  lemma AllReachMore(s: System, s': System, recipients: seq<Recipient>)
    requires AllReach(s, recipients) && Grows(s, s') && LastReaches(s, s')
    ensures AllReach(s', recipients + NewRecipients(s, s'))
  {
    var all := recipients + NewRecipients(s, s');
    forall i | 0 <= i < |all|
      ensures Reaches(s', s'.g.brokerBound[i].msg, all[i])
    {
      if i < |recipients| {
        assert Reaches(s, s.g.brokerBound[i].msg, recipients[i]);
        assert s'.g.brokerBound[i] == s.g.brokerBound[i];
      }
    }
  }

  lemma AckIsQueued(s: System, prod: bool, supported: set<string>, a: Action)
    requires OneToOne(s.g) && Accepts(s, supported, a) && SessionOf(NextId(s, a.fd)) == s.g.right[a.fd]
    ensures Do(s, prod, supported, a).g.brokerBound == s.g.brokerBound + [BrokerBound(Ack(NextId(s, a.fd)), a.fd)]
  {
    LookupsAgree(s.g, a.fd, NextId(s, a.fd));
    hide OneToOne, SessionOf, GenerateOrderId;
  }

  lemma AcceptReaches(s: System, prod: bool, supported: set<string>, a: Action)
    requires Inv(s, supported) && Accepts(s, supported, a) && s.accepted + 1 < TWO_TO_THE_32
    ensures var s' := Do(s, prod, supported, a); Grows(s, s') && LastReaches(s, s')
  {
    hide OneToOne, QueueInv, OwnersInv, LiveInv, ExchangeInv, Do, NextId, SessionOf, SessionOfConnection;
    NextIdIsNew(s, supported, a.fd);
    Routing.Accepted(s, prod, supported, a);
    AckIsQueued(s, prod, supported, a);
    hide Accepts;
  }

  lemma OtherMessageReaches(s: System, prod: bool, supported: set<string>, a: Action)
    requires Inv(s, supported) && a.Message? && !Accepts(s, supported, a)
    ensures var s' := Do(s, prod, supported, a); Grows(s, s') && LastReaches(s, s')
  {
    hide OneToOne, QueueInv, OwnersInv, LiveInv, ExchangeInv, SessionOf, GenerateOrderId, SessionOfConnection;
    var s' := Do(s, prod, supported, a);
    if a.request.Place? && a.fd in s.g.right {
      var error := ValidateOrderData(a.isOpen, supported, a.request.order);
      assert error.Some? && s'.g.brokerBound == s.g.brokerBound + [BrokerBound(Reject(error.value), a.fd)];
    }
  }

  /** The session that an order's id names is that of its owner, and of the holder of the message's destination. */
  lemma DestinationFits(s: System, supported: set<string>, id: OrderId, fd: Fd)
    requires Inv(s, supported) && id in s.owner && DestinationFd(s.g, id) == Some(fd)
    ensures fd in s.holder && 1 <= s.holder[fd] <= s.cxns && (s.holder[fd] - s.owner[id]) % TWO_TO_THE_16 == 0
  {
    hide QueueInv, ExchangeInv, LiveInv, SessionOf, SessionOfConnection, OrderNumOf;
    LookupsAgree(s.g, fd, id);
    SessionIdsRepeat(s.holder[fd], s.owner[id]);
  }

  lemma NoticeIsOwned(s: System, supported: set<string>, i: nat)
    requires Inv(s, supported) && i < |s.x.toServer|
    ensures s.x.toServer[i].orderId in s.owner
  {
    hide QueueInv, OwnersInv, LiveInv, SessionsInv, EnginesFit;
  }

  lemma DeliverReaches(s: System, prod: bool, supported: set<string>, i: nat)
    requires Inv(s, supported) && i < |s.x.toServer|
    ensures var s' := Do(s, prod, supported, Deliver(i)); Grows(s, s') && LastReaches(s, s')
  {
    hide Inv, DestinationFd;
    var id := s.x.toServer[i].orderId;
    NoticeIsOwned(s, supported, i);
    var fd := DestinationFd(s.g, id);
    if fd.Some? {
      DestinationFits(s, supported, id, fd.value);
    }
  }

  lemma OtherGrows(s: System, prod: bool, supported: set<string>, a: Action)
    requires Enabled(s, a) && !a.Message? && !a.Deliver?
    ensures var s' := Do(s, prod, supported, a); Grows(s, s') && LastReaches(s, s')
  {
    hide Taken, OrderMatched, FillReported, OrderTaken;
  }

  lemma StepReaches(s: System, prod: bool, supported: set<string>, a: Action, recipients: seq<Recipient>)
    requires Inv(s, supported) && Enabled(s, a) && Do(s, prod, supported, a).accepted < TWO_TO_THE_32
    requires AllReach(s, recipients)
    ensures
      var s' := Do(s, prod, supported, a);
      AllReach(s', recipients + NewRecipients(s, s'))
  {
    hide Inv, AllReach, Grows, LastReaches, NewRecipients, Handled, Taken, OrderMatched, FillReported, Notified,
      Connected,
      OrderTaken, NextId;
    var s' := Do(s, prod, supported, a);
    match a {
      case Message(_, _, _, _) =>
        if Accepts(s, supported, a) {
          MessageIsCounted(s, prod, supported, a);
          AcceptReaches(s, prod, supported, a);
        } else {
          OtherMessageReaches(s, prod, supported, a);
        }
      case Deliver(i) => DeliverReaches(s, prod, supported, i);
      case _ => OtherGrows(s, prod, supported, a);
    }
    AllReachMore(s, s', recipients);
  }

  lemma MessageIsCounted(s: System, prod: bool, supported: set<string>, a: Action)
    requires Inv(s, supported) && Accepts(s, supported, a)
    ensures Do(s, prod, supported, a).accepted == s.accepted + 1
  {
    hide OneToOne, QueueInv, OwnersInv, LiveInv, ExchangeInv, SessionOf, SessionOfConnection, NextId, Handled;
  }

  /**
   * Every message the gateway ever queued about an order was queued while its descriptor was held by a connection
   * whose number is that of the placing one, up to multiples of 2^16.
   */
  lemma {:induction false} MessagesReachOwners(prod: bool, supported: set<string>, actions: seq<Action>)
    requires Run(prod, supported, actions).accepted < TWO_TO_THE_32
    ensures AllReach(Run(prod, supported, actions), Recipients(prod, supported, actions))
  {
    if actions != [] {
      var rest, a := actions[..|actions| - 1], actions[|actions| - 1];
      CountsGrow(prod, supported, actions);
      MessagesReachOwners(prod, supported, rest);
      RunKeeps(prod, supported, rest);
      var s := Run(prod, supported, rest);
      hide Inv, AllReach;
      assert Recipients(prod, supported, rest) + [] == Recipients(prod, supported, rest);
      if Enabled(s, a) {
        StepReaches(s, prod, supported, a, Recipients(prod, supported, rest));
      }
    }
  }

  /** With few connections it is the placing one itself, at every moment of the run. */
  lemma MessagesReachTheirOwner(prod: bool, supported: set<string>, actions: seq<Action>, i: nat)
    requires Run(prod, supported, actions).accepted < TWO_TO_THE_32 && FewConnections(Run(prod, supported, actions))
    requires
      var s := Run(prod, supported, actions);
      i < |s.g.brokerBound| && !s.g.brokerBound[i].msg.Reject?
    ensures
      var s := Run(prod, supported, actions);
      && |Recipients(prod, supported, actions)| == |s.g.brokerBound|
      && s.g.brokerBound[i].msg.orderId in s.owner
      && Recipients(prod, supported, actions)[i] == Some(s.owner[s.g.brokerBound[i].msg.orderId])
  {
    hide Run, Recipients, SessionsInv, OwnersInv, QueueInv, ExchangeInv, AllReach;
    MessagesReachOwners(prod, supported, actions);
    RunKeeps(prod, supported, actions);
    ReachesItsOwner(Run(prod, supported, actions), Recipients(prod, supported, actions), i);
  }

  lemma ReachesItsOwner(s: System, recipients: seq<Recipient>, i: nat)
    requires AllReach(s, recipients) && OwnersInv(s) && FewConnections(s)
    requires i < |s.g.brokerBound| && !s.g.brokerBound[i].msg.Reject?
    ensures |recipients| == |s.g.brokerBound|
    ensures s.g.brokerBound[i].msg.orderId in s.owner && recipients[i] == Some(s.owner[s.g.brokerBound[i].msg.orderId])
  {
    hide SessionOf, SessionOfConnection, OrderNumOf;
    assert Reaches(s, s.g.brokerBound[i].msg, recipients[i]);
    SameIfCongruent(recipients[i].value, s.owner[s.g.brokerBound[i].msg.orderId]);
  }

  // ----- A run in which a message goes astray

  /** Connection n, on descriptor n, comes and goes. */
  function Visit(n: nat): seq<Action> {
    [Arrive(n), Register, Disconnect(n)]
  }

  /** So do connections 2 to n. */
  function Churn(n: nat): seq<Action> {
    if n <= 1 then [] else Churn(n - 1) + Visit(n)
  }

  /** A broker places an order and leaves. */
  function Deserted(r: OrderRequest): seq<Action> {
    [Arrive(1), Register, Message(1, Place(r), true, true), Disconnect(1)]
  }

  /** Only one order was ever placed, by connection 1, and nobody is connected after c connections. */
  function Quiet(supported: set<string>, r: OrderRequest, c: nat): System {
    var id := GenerateOrderId(1, 1);
    System(Gateway(map[], map[], c, 1, [NewOrder(r.(orderId := id))], [BrokerBound(Ack(id), 1)]),
           Initial(supported).x, c, 1, None, map[], map[], map[id := 1])
  }

  /** Some actions, from any state. */
  function Steps(s: System, prod: bool, supported: set<string>, actions: seq<Action>): System {
    if actions == [] then s
    else Next(Steps(s, prod, supported, actions[..|actions| - 1]), prod, supported, actions[|actions| - 1])
  }

  lemma {:induction false} RunOn(prod: bool, supported: set<string>, actions: seq<Action>, more: seq<Action>)
    ensures Run(prod, supported, actions + more) == Steps(Run(prod, supported, actions), prod, supported, more)
  {
    if more == [] {
      assert actions + more == actions;
    } else {
      RunOn(prod, supported, actions, more[..|more| - 1]);
      assert (actions + more)[..|actions + more| - 1] == actions + more[..|more| - 1];
    }
  }

  lemma TwoSteps(s: System, prod: bool, supported: set<string>, a: Action, b: Action)
    ensures Steps(s, prod, supported, [a, b]) == Next(Next(s, prod, supported, a), prod, supported, b)
  {
    assert [a, b][..1] == [a];
    OneStep(s, prod, supported, a);
  }

  lemma StepsApart(s: System, prod: bool, supported: set<string>, actions: seq<Action>, more: seq<Action>)
    ensures
      Steps(s, prod, supported, actions + more) == Steps(Steps(s, prod, supported, actions), prod, supported, more)
  {
    if more == [] {
      assert actions + more == actions;
    } else {
      StepsApart(s, prod, supported, actions, more[..|more| - 1]);
      assert (actions + more)[..|actions + more| - 1] == actions + more[..|more| - 1];
    }
  }

  lemma OneStep(s: System, prod: bool, supported: set<string>, a: Action)
    ensures Steps(s, prod, supported, [a]) == Next(s, prod, supported, a)
  {
    assert [a][..0] == [];
  }

  /** A connection arrives and is registered: as if in one step. */
  function Joined(s: System, fd: Fd): System {
    s.(g := Connected(s.g, fd), cxns := s.cxns + 1,
       live := s.live[fd := s.cxns + 1], holder := s.holder[fd := s.cxns + 1])
  }

  lemma Joins(s: System, prod: bool, supported: set<string>, fd: Fd)
    requires s.arriving.None? && fd !in s.live && fd !in s.holder
    ensures Steps(s, prod, supported, [Arrive(fd), Register]) == Joined(s, fd)
  {
    hide Connected;
    TwoSteps(s, prod, supported, Arrive(fd), Register);
  }

  lemma PlacedAndLeft(prod: bool, supported: set<string>, r: OrderRequest)
    requires Acceptable(true, supported, r)
    ensures
      var s := Joined(Initial(supported), 1);
      var s' := Next(s, prod, supported, Message(1, Place(r), true, true));
      Next(s', prod, supported, Disconnect(1)) == Quiet(supported, r, 1)
  {
    var g := Connected(Initial(supported).g, 1);
    assert g.left == map[1 := 1] && g.right == map[1 := 1];
    Unpacks(1, 1);
    hide Acceptable, ValidateOrderData;
  }

  lemma DesertedIsQuiet(prod: bool, supported: set<string>, r: OrderRequest)
    requires Acceptable(true, supported, r)
    ensures Run(prod, supported, Deserted(r)) == Quiet(supported, r, 1)
  {
    hide Acceptable, Steps, Next, Joined, Quiet;
    var place, leave := Message(1, Place(r), true, true), Disconnect(1);
    assert Deserted(r) == [] + ([Arrive(1), Register] + [place, leave]);
    RunOn(prod, supported, [], [Arrive(1), Register] + [place, leave]);
    StepsApart(Initial(supported), prod, supported, [Arrive(1), Register], [place, leave]);
    Joins(Initial(supported), prod, supported, 1);
    TwoSteps(Joined(Initial(supported), 1), prod, supported, place, leave);
    PlacedAndLeft(prod, supported, r);
  }

  /** There is nothing to remember a visitor by but the count. */
  lemma VisitIsQuiet(prod: bool, supported: set<string>, r: OrderRequest, c: nat)
    requires c + 1 < TWO_TO_THE_32
    ensures Steps(Quiet(supported, r, c), prod, supported, Visit(c + 1)) == Quiet(supported, r, c + 1)
  {
    hide Steps, Next, Joined, Quiet;
    var s := Quiet(supported, r, c);
    assert Visit(c + 1) == [Arrive(c + 1), Register] + [Disconnect(c + 1)];
    StepsApart(s, prod, supported, [Arrive(c + 1), Register], [Disconnect(c + 1)]);
    NobodyIsThere(supported, r, c);
    Joins(s, prod, supported, c + 1);
    OneStep(Joined(s, c + 1), prod, supported, Disconnect(c + 1));
    VisitorLeaves(prod, supported, r, c);
  }

  lemma NobodyIsThere(supported: set<string>, r: OrderRequest, c: nat)
    ensures var s := Quiet(supported, r, c); s.arriving.None? && s.live == map[] && s.holder == map[]
  {
  }

  lemma VisitorLeaves(prod: bool, supported: set<string>, r: OrderRequest, c: nat)
    requires c + 1 < TWO_TO_THE_32
    ensures
      Next(Joined(Quiet(supported, r, c), c + 1), prod, supported, Disconnect(c + 1)) == Quiet(supported, r, c + 1)
  {
    hide GenerateOrderId;
  }

  lemma {:induction false} ChurnIsQuiet(prod: bool, supported: set<string>, r: OrderRequest, n: nat)
    requires Acceptable(true, supported, r) && 1 <= n < TWO_TO_THE_32
    ensures Run(prod, supported, Deserted(r) + Churn(n)) == Quiet(supported, r, n)
  {
    hide Run, Acceptable, Visit, Quiet, Steps, Deserted;
    if n == 1 {
      assert Deserted(r) + Churn(1) == Deserted(r);
      DesertedIsQuiet(prod, supported, r);
    } else {
      ChurnIsQuiet(prod, supported, r, n - 1);
      assert Deserted(r) + Churn(n) == (Deserted(r) + Churn(n - 1)) + Visit(n);
      RunOn(prod, supported, Deserted(r) + Churn(n - 1), Visit(n));
      VisitIsQuiet(prod, supported, r, n - 1);
    }
  }

  /** Connection n + 1 comes, and the exchange's answer to the order of connection 1 is delivered. */
  function Astray(r: OrderRequest, n: nat): seq<Action> {
    (Deserted(r) + Churn(n)) + ([Arrive(n + 1), Register] + [Take(Queued), Deliver(0)])
  }

  lemma Comeback(prod: bool, supported: set<string>, r: OrderRequest, c: nat)
    requires Acceptable(true, supported, r) && c == TWO_TO_THE_16
    ensures
      var id, s := GenerateOrderId(1, 1), Joined(Quiet(supported, r, c), c + 1);
      var s' := Next(Next(s, prod, supported, Take(Queued)), prod, supported, Deliver(0));
      && s'.g.brokerBound == [BrokerBound(Ack(id), 1), BrokerBound(About(id), c + 1)]
      && s'.live == map[c + 1 := c + 1] && s'.owner == map[id := 1] && s'.cxns == c + 1
  {
    Unpacks(1, 1);
    hide Acceptable;
  }

  /**
   * The session of connection 2^16 + 1 is that of connection 1.  So it is told about the latter's order, which is
   * long gone: with more connections than session ids, messages do go to the wrong broker.
   */
  lemma MessageGoesAstray(prod: bool, supported: set<string>, r: OrderRequest, n: nat)
    requires Acceptable(true, supported, r) && n == TWO_TO_THE_16
    ensures
      var s, id := Run(prod, supported, Astray(r, n)), GenerateOrderId(1, 1);
      && s.g.brokerBound == [BrokerBound(Ack(id), 1), BrokerBound(About(id), n + 1)]
      && s.live == map[n + 1 := n + 1] && s.owner == map[id := 1]
      && s.cxns == n + 1
  {
    hide Run, Acceptable, Next, Deserted, Churn, Steps, Joined;
    var actions, s := Deserted(r) + Churn(n), Quiet(supported, r, n);
    var join, answer := [Arrive(n + 1), Register], [Take(Queued), Deliver(0)];
    ChurnIsQuiet(prod, supported, r, n);
    Joins(s, prod, supported, n + 1);
    RunOn(prod, supported, actions, join + answer);
    StepsApart(s, prod, supported, join, answer);
    TwoSteps(Joined(s, n + 1), prod, supported, Take(Queued), Deliver(0));
    Comeback(prod, supported, r, n);
  }
}
