/** Orders as objects, and price levels as the lists of orders cut out of one list in arrival order. */
module ExchangeOrders {
  import opened TradingTypes
  import opened Ticks
  import opened PriceTime
  import OrderIds

  class ExchangeOrder {
    const orderId: OrderId
    const sessionId: SessionId
    const side: SideType
    const priceType: PriceType
    const price: Price
    const qty: nat
    var qtyRemaining: nat
    var status: OrderStatus

    /** The session is the one packed into the id. */
    constructor (orderId: OrderId, side: SideType, priceType: PriceType, price: Price, qty: nat)
      ensures Value() == Order(orderId, OrderIds.SessionOf(orderId), side, priceType, price, qty, qty, Unfilled)
    {
      this.orderId, this.sessionId, this.side, this.priceType := orderId, OrderIds.SessionOf(orderId), side, priceType;
      this.price, this.qty, this.qtyRemaining, this.status := price, qty, qty, Unfilled;
    }

    function Value(): Order
      reads this
    {
      Order(orderId, sessionId, side, priceType, price, qty, qtyRemaining, status)
    }

    predicate OnGrid() {
      0 <= Index() < NUM_LEVELS
    }

    function Index(): int {
      PriceToIndex(price)
    }
  }

  /** The values of a list of orders. */
  ghost function Values(s: seq<ExchangeOrder>): (r: seq<Order>)
    reads s
    ensures |r| == |s| && forall i :: 0 <= i < |s| ==> r[i] == s[i].Value()
  {
    if s == [] then [] else [s[0].Value()] + Values(s[1..])
  }

  ghost predicate AllOnGrid(s: seq<ExchangeOrder>) {
    forall i :: 0 <= i < |s| ==> s[i].OnGrid()
  }

  ghost predicate DistinctIds(s: seq<ExchangeOrder>) {
    forall i, j :: 0 <= i < j < |s| ==> s[i].orderId != s[j].orderId
  }

  predicate At(o: ExchangeOrder, side: SideType, i: int) {
    o.side == side && o.Index() == i
  }

  /** The orders of one side and level, still in arrival order. */
  ghost function LevelOf(s: seq<ExchangeOrder>, side: SideType, i: int): (r: seq<ExchangeOrder>)
    ensures forall k :: 0 <= k < |r| ==> r[k] in s && At(r[k], side, i)
  {
    if s == [] then []
    else (if At(s[0], side, i) then [s[0]] else []) + LevelOf(s[1..], side, i)
  }

  lemma LevelOfConcat(a: seq<ExchangeOrder>, b: seq<ExchangeOrder>, side: SideType, i: int)
    ensures LevelOf(a + b, side, i) == LevelOf(a, side, i) + LevelOf(b, side, i)
  {
    if a == [] {
      assert a + b == b;
    } else {
      assert (a + b)[1..] == a[1..] + b;
      LevelOfConcat(a[1..], b, side, i);
    }
  }

  /** How many orders of its level are ahead of s[p]. */
  ghost function Rank(s: seq<ExchangeOrder>, p: nat): nat
    requires p < |s|
  {
    |LevelOf(s[..p], s[p].side, s[p].Index())|
  }

  lemma LevelOfSplit(s: seq<ExchangeOrder>, p: nat, side: SideType, i: int)
    requires p < |s|
    ensures LevelOf(s, side, i) ==
      LevelOf(s[..p], side, i) + (if At(s[p], side, i) then [s[p]] else []) + LevelOf(s[p + 1..], side, i)
  {
    assert s == s[..p] + ([s[p]] + s[p + 1..]);
    LevelOfConcat(s[..p], [s[p]] + s[p + 1..], side, i);
    LevelOfConcat([s[p]], s[p + 1..], side, i);
  }

  lemma LevelOfAppend(s: seq<ExchangeOrder>, o: ExchangeOrder, side: SideType, i: int)
    ensures LevelOf(s + [o], side, i) == LevelOf(s, side, i) + (if At(o, side, i) then [o] else [])
  {
    LevelOfConcat(s, [o], side, i);
  }

  // An order sits in its level at its rank.
  lemma RankInLevel(s: seq<ExchangeOrder>, p: nat)
    requires p < |s|
    ensures
      var level := LevelOf(s, s[p].side, s[p].Index());
      Rank(s, p) < |level| && level[Rank(s, p)] == s[p]
  {
    LevelOfSplit(s, p, s[p].side, s[p].Index());
  }

  lemma RankIsMonotone(s: seq<ExchangeOrder>, p: nat, q: nat)
    requires p < q < |s| && At(s[q], s[p].side, s[p].Index())
    ensures Rank(s, p) < Rank(s, q)
  {
    LevelOfSplit(s[..q], p, s[p].side, s[p].Index());
    assert s[..q][..p] == s[..p];
  }

  // Every place of a level is the rank of exactly one order of the list.
  lemma Locate(s: seq<ExchangeOrder>, side: SideType, i: int, k: nat) returns (p: nat)
    requires k < |LevelOf(s, side, i)|
    ensures p < |s| && At(s[p], side, i) && s[p] == LevelOf(s, side, i)[k] && Rank(s, p) == k
  {
    if At(s[0], side, i) && k == 0 {
      p := 0;
    } else {
      var own := if At(s[0], side, i) then 1 else 0;
      var p' := Locate(s[1..], side, i, k - own);
      p := p' + 1;
      assert s[..p] == [s[0]] + s[1..][..p'];
      assert s[..p][1..] == s[1..][..p'];
    }
  }

  /** The list with its k-th node erased. */
  function Erase(s: seq<ExchangeOrder>, k: nat): seq<ExchangeOrder>
    requires k < |s|
  {
    s[..k] + s[k + 1..]
  }

  // The node that holds an order is at the order's rank.
  lemma NodeIsAtRank(s: seq<ExchangeOrder>, p: nat, k: nat)
    requires DistinctIds(s) && p < |s|
    requires k < |LevelOf(s, s[p].side, s[p].Index())| && LevelOf(s, s[p].side, s[p].Index())[k] == s[p]
    ensures k == Rank(s, p)
  {
    var p' := Locate(s, s[p].side, s[p].Index(), k);
    assert p' == p;
  }

  // Taking an order out of the list takes it out of its level ...
  lemma LevelOfErase(s: seq<ExchangeOrder>, p: nat)
    requires p < |s|
    ensures
      var (side, i) := (s[p].side, s[p].Index());
      && Rank(s, p) < |LevelOf(s, side, i)|
      && LevelOf(Erase(s, p), side, i) == Erase(LevelOf(s, side, i), Rank(s, p))
  {
    var (side, i) := (s[p].side, s[p].Index());
    var front, back := LevelOf(s[..p], side, i), LevelOf(s[p + 1..], side, i);
    LevelOfSplit(s, p, side, i);
    LevelOfConcat(s[..p], s[p + 1..], side, i);
    assert LevelOf(s, side, i) == front + [s[p]] + back;
    assert (front + [s[p]] + back)[|front| + 1..] == back;
  }

  // ... and touches no other level.
  lemma LevelOfEraseElsewhere(s: seq<ExchangeOrder>, p: nat, side: SideType, i: int)
    requires p < |s| && !At(s[p], side, i)
    ensures LevelOf(Erase(s, p), side, i) == LevelOf(s, side, i)
  {
    LevelOfSplit(s, p, side, i);
    LevelOfConcat(s[..p], s[p + 1..], side, i);
  }

  ghost predicate Within(s: seq<ExchangeOrder>, t: seq<ExchangeOrder>) {
    forall m :: 0 <= m < |s| ==> s[m] in t
  }

  lemma EraseIsWithin(s: seq<ExchangeOrder>, p: nat)
    requires p < |s|
    ensures Within(Erase(s, p), s)
  {
    var s' := Erase(s, p);
    forall m | 0 <= m < |s'|
      ensures s'[m] in s
    {
      assert s'[m] == if m < p then s[m] else s[m + 1];
    }
  }

  lemma CutAt<T>(s: seq<T>, p: nat, m: nat)
    requires p < |s| && m < |s| - 1
    ensures (s[..p] + s[p + 1..])[m] == s[if m < p then m else m + 1]
  {
  }

  lemma ValuesErase(s: seq<ExchangeOrder>, p: nat)
    requires p < |s|
    ensures Values(Erase(s, p)) == Values(s)[..p] + Values(s)[p + 1..]
  {
    var s', v := Erase(s, p), Values(s);
    var v' := v[..p] + v[p + 1..];
    assert |s'| == |s| - 1 == |v'|;
    forall m | 0 <= m < |v'|
      ensures Values(s')[m] == v'[m]
    {
      CutAt(s, p, m);
      CutAt(v, p, m);
      hide Values;
      assert Values(s')[m] == s'[m].Value();
    }
  }

  // ----- The two structures kept beside the arrival order

  /** The price levels of one side, each a list of its orders by arrival. */
  ghost predicate LevelsAgree(s: seq<ExchangeOrder>, levels: seq<seq<ExchangeOrder>>, side: SideType) {
    forall i :: 0 <= i < |levels| ==> levels[i] == LevelOf(s, side, i)
  }

  /** The id index holds exactly the listed orders, each under its own id. */
  ghost predicate IndexAgrees(s: seq<ExchangeOrder>, index: map<OrderId, ExchangeOrder>) {
    && (forall p :: 0 <= p < |s| ==> s[p].orderId in index && index[s[p].orderId] == s[p])
    && (forall id :: id in index ==> index[id] in s && index[id].orderId == id)
  }

  lemma LevelsAfterErase(s: seq<ExchangeOrder>, levels: seq<seq<ExchangeOrder>>, side: SideType, p: nat)
    requires p < |s| && LevelsAgree(s, levels, side)
    ensures s[p].side != side ==> LevelsAgree(Erase(s, p), levels, side)
    ensures
      var i := s[p].Index();
      s[p].side == side && 0 <= i < |levels| ==>
        Rank(s, p) < |levels[i]| && LevelsAgree(Erase(s, p), levels[i := Erase(levels[i], Rank(s, p))], side)
  {
    LevelOfErase(s, p);
    forall j | 0 <= j < |levels| && !At(s[p], side, j)
      ensures LevelOf(Erase(s, p), side, j) == levels[j]
    {
      LevelOfEraseElsewhere(s, p, side, j);
    }
  }

  lemma LevelsAfterAppend(s: seq<ExchangeOrder>, levels: seq<seq<ExchangeOrder>>, side: SideType, o: ExchangeOrder)
    requires LevelsAgree(s, levels, side)
    ensures o.side != side ==> LevelsAgree(s + [o], levels, side)
    ensures
      var i := o.Index();
      o.side == side && 0 <= i < |levels| ==> LevelsAgree(s + [o], levels[i := levels[i] + [o]], side)
  {
    forall j | 0 <= j < |levels|
      ensures LevelOf(s + [o], side, j) == levels[j] + (if At(o, side, j) then [o] else [])
    {
      LevelOfAppend(s, o, side, j);
    }
  }

  lemma ErasedAt(s: seq<ExchangeOrder>, p: nat)
    requires p < |s|
    ensures |Erase(s, p)| == |s| - 1
    ensures forall q :: 0 <= q < |s| - 1 ==> Erase(s, p)[q] == if q < p then s[q] else s[q + 1]
  {
  }

  lemma IndexAfterErase(s: seq<ExchangeOrder>, index: map<OrderId, ExchangeOrder>, p: nat)
    requires p < |s| && DistinctIds(s) && IndexAgrees(s, index)
    ensures DistinctIds(Erase(s, p)) && IndexAgrees(Erase(s, p), index - {s[p].orderId})
  {
    var s', index' := Erase(s, p), index - {s[p].orderId};
    ErasedAt(s, p);
    hide Erase;
    forall id | id in index'
      ensures index'[id] in s'
    {
      var q :| 0 <= q < |s| && s[q] == index[id];
      assert s'[if q < p then q else q - 1] == s[q];
    }
  }

  lemma IndexAfterAppend(s: seq<ExchangeOrder>, index: map<OrderId, ExchangeOrder>, o: ExchangeOrder)
    requires DistinctIds(s) && IndexAgrees(s, index) && o.orderId !in index
    ensures DistinctIds(s + [o]) && IndexAgrees(s + [o], index[o.orderId := o])
  {
  }

  lemma ValuesPush(o: ExchangeOrder, rest: seq<ExchangeOrder>)
    ensures Values([o] + rest) == [o.Value()] + Values(rest)
  {
    assert ([o] + rest)[1..] == rest;
  }

  // Cutting a level out of the orders and out of their values comes to the same.
  lemma ValuesOfLevel(s: seq<ExchangeOrder>, book: seq<Order>, side: SideType, i: int)
    requires |book| == |s| && forall q :: 0 <= q < |s| ==> book[q].side == s[q].side && book[q].price == s[q].price
    requires forall q :: 0 <= q < |s| && At(s[q], side, i) ==> s[q].Value() == book[q]
    ensures Values(LevelOf(s, side, i)) == LevelOrders(book, side, i)
  {
    if s != [] {
      var s', book' := s[1..], book[1..];
      assert forall q :: 0 <= q < |s'| ==> s'[q] == s[q + 1] && book'[q] == book[q + 1];
      ValuesOfLevel(s', book', side, i);
      assert At(s[0], side, i) <==> book[0].side == side && Level(book[0]) == i;
      hide At, Level, Values;
      ValuesPush(s[0], LevelOf(s', side, i));
      assert [] + LevelOf(s', side, i) == LevelOf(s', side, i);
      assert [] + LevelOrders(book', side, i) == LevelOrders(book', side, i);
    }
  }

  lemma LevelOfIsDistinct(s: seq<ExchangeOrder>, side: SideType, i: int)
    requires DistinctIds(s)
    ensures DistinctIds(LevelOf(s, side, i))
  {
    var level := LevelOf(s, side, i);
    forall k, m | 0 <= k < m < |level|
      ensures level[k].orderId != level[m].orderId
    {
      var p := Locate(s, side, i, k);
      var q := Locate(s, side, i, m);
      assert p != q;
    }
  }
}
