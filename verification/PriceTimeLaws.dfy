/** What a match does to the book, in closed form: the allocation of price-time priority. */
module PriceTimeLaws {
  import opened Options
  import opened TradingTypes
  import opened Ticks
  import opened PriceTime

  /** Every resting order has something left to trade. */
  predicate Positive(book: seq<Order>) {
    forall i :: 0 <= i < |book| ==> 0 < book[i].qtyRemaining
  }

  /** Eligible quantity in a part of the book at levels better than, or not worse than, a level. */
  function QtyAt(prod: bool, part: seq<Order>, aggr: Order, level: int, strictly: bool): nat {
    if part == [] then 0
    else
      var o := part[|part| - 1];
      QtyAt(prod, part[..|part| - 1], aggr, level, strictly) +
      if Eligible(prod, aggr, o) && (Better(aggr.side, Level(o), level) || (!strictly && Level(o) == level))
      then o.qtyRemaining else 0
  }

  /** Eligible quantity with priority over book[x]. */
  function QtyAhead(prod: bool, book: seq<Order>, aggr: Order, x: nat): nat
    requires x < |book|
  {
    QtyAt(prod, book[..x], aggr, Level(book[x]), false) + QtyAt(prod, book[x + 1..], aggr, Level(book[x]), true)
  }

  /** What price-time priority gives book[x]: what is left after everything ahead of it. */
  function Allocation(prod: bool, book: seq<Order>, aggr: Order, x: nat): (a: nat)
    requires x < |book|
    ensures a <= book[x].qtyRemaining
  {
    var ahead := QtyAhead(prod, book, aggr, x);
    if !Eligible(prod, aggr, book[x]) || aggr.qtyRemaining <= ahead then 0
    else Min(book[x].qtyRemaining, aggr.qtyRemaining - ahead)
  }

  /** Does the match get to book[x]?  An order for nothing gets to the best order and no further. */
  ghost predicate Reached(prod: bool, book: seq<Order>, aggr: Order, x: nat)
    requires x < |book|
  {
    && Eligible(prod, aggr, book[x])
    && (QtyAhead(prod, book, aggr, x) < aggr.qtyRemaining || (aggr.qtyRemaining == 0 && IsBest(prod, book, aggr, x)))
  }

  /** An order with a quantity traded: gone if that was all it had left. */
  function Traded(o: Order, q: nat): seq<Order>
    requires q <= o.qtyRemaining
  {
    if q == o.qtyRemaining then [] else [Fill(o, q)]
  }

  /** What remains of book[x]. */
  ghost function Allocated(prod: bool, book: seq<Order>, aggr: Order, x: nat): seq<Order>
    requires x < |book|
  {
    if Reached(prod, book, aggr, x) then Traded(book[x], Allocation(prod, book, aggr, x)) else [book[x]]
  }

  /** The first n orders of the book, each with its allocation traded. */
  ghost function AllocatedBook(prod: bool, book: seq<Order>, aggr: Order, n: nat): seq<Order>
    requires n <= |book|
  {
    if n == 0 then []
    else AllocatedBook(prod, book, aggr, n - 1) + Allocated(prod, book, aggr, n - 1)
  }

  lemma QtyAtConcat(prod: bool, a: seq<Order>, b: seq<Order>, aggr: Order, level: int, strictly: bool)
    ensures QtyAt(prod, a + b, aggr, level, strictly) == QtyAt(prod, a, aggr, level, strictly) +
      QtyAt(prod, b, aggr, level, strictly)
  {
    if b == [] {
      assert a + b == a;
    } else {
      assert (a + b)[..|a + b| - 1] == a + b[..|b| - 1];
      QtyAtConcat(prod, a, b[..|b| - 1], aggr, level, strictly);
    }
  }

  // Eligibility and the sums do not look at what the incoming order has left.
  lemma QtyAtOfRest(prod: bool, part: seq<Order>, aggr: Order, aggr': Order, level: int, strictly: bool)
    requires aggr' == aggr.(qtyRemaining := aggr'.qtyRemaining, status := aggr'.status)
    ensures QtyAt(prod, part, aggr', level, strictly) == QtyAt(prod, part, aggr, level, strictly)
  {
  }

  lemma QtyAtSplit(prod: bool, part: seq<Order>, p: nat, aggr: Order, level: int, strictly: bool)
    requires p < |part|
    ensures QtyAt(prod, part, aggr, level, strictly) ==
      QtyAt(prod, part[..p] + part[p + 1..], aggr, level, strictly) + QtyAt(prod, [part[p]], aggr, level, strictly)
  {
    assert part == part[..p] + ([part[p]] + part[p + 1..]);
    QtyAtConcat(prod, part[..p], [part[p]] + part[p + 1..], aggr, level, strictly);
    QtyAtConcat(prod, [part[p]], part[p + 1..], aggr, level, strictly);
    QtyAtConcat(prod, part[..p], part[p + 1..], aggr, level, strictly);
  }

  // Nothing is ahead of the best order.
  lemma NothingAheadOfBest(prod: bool, book: seq<Order>, aggr: Order, p: nat, n: nat)
    requires IsBest(prod, book, aggr, p)
    ensures n <= p ==> QtyAt(prod, book[..n], aggr, Level(book[p]), false) == 0
    ensures p < n <= |book| ==> QtyAt(prod, book[p + 1..n], aggr, Level(book[p]), true) == 0
  {
    if n <= p {
      if n != 0 {
        NothingAheadOfBest(prod, book, aggr, p, n - 1);
        assert book[..n][..n - 1] == book[..n - 1];
        if Eligible(prod, aggr, book[n - 1]) {
          assert Ahead(aggr.side, book, p, n - 1);
        }
      }
    } else if p + 1 < n <= |book| {
      NothingAheadOfBest(prod, book, aggr, p, n - 1);
      assert book[p + 1..n][..n - 1 - (p + 1)] == book[p + 1..n - 1];
      if Eligible(prod, aggr, book[n - 1]) {
        assert Ahead(aggr.side, book, p, n - 1);
      }
    }
  }

  lemma BestComesFirst(prod: bool, book: seq<Order>, aggr: Order, p: nat)
    requires IsBest(prod, book, aggr, p)
    ensures QtyAhead(prod, book, aggr, p) == 0
  {
    NothingAheadOfBest(prod, book, aggr, p, p);
    NothingAheadOfBest(prod, book, aggr, p, |book|);
    assert book[p + 1..|book|] == book[p + 1..];
  }

  // The best order counts as ahead of every other eligible order, wherever that is.
  lemma BestIsAheadOfEarlier(prod: bool, book: seq<Order>, aggr: Order, p: nat, x: nat)
    requires x < p < |book| && IsBest(prod, book, aggr, p) && Eligible(prod, aggr, book[x])
    ensures QtyAhead(prod, book, aggr, x) == book[p].qtyRemaining + QtyAhead(prod, book[..p] + book[p + 1..], aggr, x)
  {
    var book', level := book[..p] + book[p + 1..], Level(book[x]);
    assert Ahead(aggr.side, book, p, x);
    assert QtyAt(prod, [book[p]], aggr, level, true) == book[p].qtyRemaining;
    hide QtyAt, Eligible, IsBest, Level;
    var later := book[x + 1..];
    QtyAtSplit(prod, later, p - x - 1, aggr, level, true);
    assert book'[..x] == book[..x] && book'[x] == book[x];
    assert book'[x + 1..] == later[..p - x - 1] + later[p - x..];
  }

  lemma BestIsAheadOfLater(prod: bool, book: seq<Order>, aggr: Order, p: nat, x: nat)
    requires p < x < |book| && IsBest(prod, book, aggr, p) && Eligible(prod, aggr, book[x])
    ensures QtyAhead(prod, book, aggr, x) == book[p].qtyRemaining +
      QtyAhead(prod, book[..p] + book[p + 1..], aggr, x - 1)
  {
    var book', level := book[..p] + book[p + 1..], Level(book[x]);
    assert Ahead(aggr.side, book, p, x);
    assert QtyAt(prod, [book[p]], aggr, level, false) == book[p].qtyRemaining;
    hide QtyAt, Eligible, IsBest, Level;
    var earlier := book[..x];
    QtyAtSplit(prod, earlier, p, aggr, level, false);
    assert earlier[p] == book[p] && book'[..x - 1] == earlier[..p] + earlier[p + 1..];
    assert book'[x..] == book[x + 1..] && book'[x - 1] == book[x];
  }

  lemma BestIsAhead(prod: bool, book: seq<Order>, aggr: Order, p: nat, x: nat)
    requires p < |book| && IsBest(prod, book, aggr, p) && x < |book| && x != p && Eligible(prod, aggr, book[x])
    ensures
      QtyAhead(prod, book, aggr, x) ==
        book[p].qtyRemaining + QtyAhead(prod, book[..p] + book[p + 1..], aggr, if x < p then x else x - 1)
  {
    hide QtyAhead, IsBest, Eligible;
    if x < p {
      BestIsAheadOfEarlier(prod, book, aggr, p, x);
    } else {
      BestIsAheadOfLater(prod, book, aggr, p, x);
    }
  }

  // An incoming order that outlives the best order leaves every other allocation as it was.
  lemma AllocatedAfterFill(prod: bool, book: seq<Order>, aggr: Order, p: nat, x: nat)
    requires p < |book| && IsBest(prod, book, aggr, p) && x < |book| && x != p
    requires book[p].qtyRemaining < aggr.qtyRemaining
    ensures
      var aggr' := Fill(aggr, book[p].qtyRemaining);
      Allocated(prod, book, aggr, x) == Allocated(prod, book[..p] + book[p + 1..], aggr', if x < p then x else x - 1)
  {
    var aggr', book' := Fill(aggr, book[p].qtyRemaining), book[..p] + book[p + 1..];
    var x' := if x < p then x else x - 1;
    assert book'[x'] == book[x];
    assert Eligible(prod, aggr', book[x]) == Eligible(prod, aggr, book[x]);
    if Eligible(prod, aggr, book[x]) {
      BestIsAhead(prod, book, aggr, p, x);
      QtyAtOfRest(prod, book'[..x'], aggr, aggr', Level(book[x]), false);
      QtyAtOfRest(prod, book'[x' + 1..], aggr, aggr', Level(book[x]), true);
    }
  }

  // ----- A match allocates by price-time priority

  lemma NothingAllocated(prod: bool, book: seq<Order>, aggr: Order, n: nat)
    requires n <= |book|
    requires forall x :: 0 <= x < |book| ==> !Eligible(prod, aggr, book[x])
    ensures AllocatedBook(prod, book, aggr, n) == book[..n]
  {
    if n != 0 {
      NothingAllocated(prod, book, aggr, n - 1);
    }
  }

  // An incoming order that the best order can fill trades with nothing else.
  lemma OnlyBestTrades(prod: bool, book: seq<Order>, aggr: Order, p: nat, x: nat)
    requires p < |book| && x < |book| && IsBest(prod, book, aggr, p)
    requires aggr.qtyRemaining <= book[p].qtyRemaining
    ensures Allocated(prod, book, aggr, x) == if x == p then Traded(book[p], aggr.qtyRemaining) else [book[x]]
  {
    hide QtyAhead;
    if x == p {
      BestComesFirst(prod, book, aggr, p);
    } else if Eligible(prod, aggr, book[x]) {
      BestIsAhead(prod, book, aggr, p, x);
      if IsBest(prod, book, aggr, x) {
        BestIsUnique(prod, book, aggr, p);
        BestIsUnique(prod, book, aggr, x);
      }
    }
  }

  // One more order behind a part of the book in which book[p] was replaced.
  lemma OneMore(book: seq<Order>, p: nat, traded: seq<Order>, n: nat)
    requires p < |book| && 0 < n <= |book|
    ensures n <= p ==> book[..n - 1] + [book[n - 1]] == book[..n]
    ensures n - 1 == p ==> book[..n - 1] + traded == book[..p] + traded + book[p + 1..n]
    ensures n - 1 > p ==>
      (book[..p] + traded + book[p + 1..n - 1]) + [book[n - 1]] == book[..p] + traded + book[p + 1..n]
  {
  }

  lemma OnlyBestAllocated(prod: bool, book: seq<Order>, aggr: Order, p: nat, n: nat)
    requires n <= |book| && p < |book| && IsBest(prod, book, aggr, p)
    requires aggr.qtyRemaining <= book[p].qtyRemaining
    ensures AllocatedBook(prod, book, aggr, n) ==
      if n <= p then book[..n] else book[..p] + Traded(book[p], aggr.qtyRemaining) + book[p + 1..n]
  {
    hide Allocated, IsBest, Traded;
    if n != 0 {
      OnlyBestAllocated(prod, book, aggr, p, n - 1);
      OnlyBestTrades(prod, book, aggr, p, n - 1);
      OneMore(book, p, Traded(book[p], aggr.qtyRemaining), n);
    }
  }

  lemma BestIsFilled(prod: bool, book: seq<Order>, aggr: Order, p: nat)
    requires p < |book| && IsBest(prod, book, aggr, p) && book[p].qtyRemaining < aggr.qtyRemaining
    ensures Allocated(prod, book, aggr, p) == []
  {
    hide QtyAhead;
    BestComesFirst(prod, book, aggr, p);
  }

  lemma AllocatedBookAfterFill(prod: bool, book: seq<Order>, aggr: Order, p: nat, n: nat)
    requires n <= |book| && p < |book| && IsBest(prod, book, aggr, p) && book[p].qtyRemaining < aggr.qtyRemaining
    ensures
      AllocatedBook(prod, book, aggr, n) ==
        AllocatedBook(prod, book[..p] + book[p + 1..], Fill(aggr, book[p].qtyRemaining), if n <= p then n else n - 1)
  {
    hide IsBest, Allocated, Fill;
    if n != 0 {
      AllocatedBookAfterFill(prod, book, aggr, p, n - 1);
      if n - 1 == p {
        BestIsFilled(prod, book, aggr, p);
      } else {
        AllocatedAfterFill(prod, book, aggr, p, n - 1);
      }
    }
  }

  lemma MatchNothing(prod: bool, book: seq<Order>, aggr: Order)
    requires forall x :: 0 <= x < |book| ==> !Eligible(prod, aggr, book[x])
    ensures Match(prod, book, aggr) == Outcome(book, aggr, [])
  {
    assert Best(prod, book, aggr).None?;
  }

  lemma AfterTradeAllocates(book: seq<Order>, p: nat, q: nat)
    requires p < |book| && q <= book[p].qtyRemaining
    ensures AfterTrade(book, p, q) == book[..p] + Traded(book[p], q) + book[p + 1..]
    ensures q == book[p].qtyRemaining ==> AfterTrade(book, p, q) == book[..p] + book[p + 1..]
  {
  }

  lemma LastTradeAllocates(prod: bool, book: seq<Order>, aggr: Order, p: nat)
    requires p < |book| && IsBest(prod, book, aggr, p) && aggr.qtyRemaining <= book[p].qtyRemaining
    ensures Match(prod, book, aggr).book == AllocatedBook(prod, book, aggr, |book|)
  {
    hide Match, IsBest, AllocatedBook, Traded, AfterTrade;
    MatchStep(prod, book, aggr, p);
    AfterTradeAllocates(book, p, aggr.qtyRemaining);
    OnlyBestAllocated(prod, book, aggr, p, |book|);
    assert book[p + 1..|book|] == book[p + 1..];
  }

  lemma MatchAfterFill(prod: bool, book: seq<Order>, aggr: Order, p: nat)
    requires p < |book| && IsBest(prod, book, aggr, p) && book[p].qtyRemaining < aggr.qtyRemaining
    ensures
      var book' := book[..p] + book[p + 1..];
      |book'| == |book| - 1 && Match(prod, book, aggr).book == Match(prod, book', Fill(aggr, book[p].qtyRemaining)).book
  {
    MatchStep(prod, book, aggr, p);
    AfterTradeAllocates(book, p, book[p].qtyRemaining);
    hide Match, IsBest, AfterTrade;
  }

  lemma AllocatesAfterFill(prod: bool, book: seq<Order>, aggr: Order, p: nat)
    requires p < |book| && IsBest(prod, book, aggr, p) && book[p].qtyRemaining < aggr.qtyRemaining
    requires
      var book', aggr' := book[..p] + book[p + 1..], Fill(aggr, book[p].qtyRemaining);
      Match(prod, book', aggr').book == AllocatedBook(prod, book', aggr', |book'|)
    ensures Match(prod, book, aggr).book == AllocatedBook(prod, book, aggr, |book|)
  {
    hide Match, IsBest, AllocatedBook;
    MatchAfterFill(prod, book, aggr, p);
    AllocatedBookAfterFill(prod, book, aggr, p, |book|);
  }

  // The book after a match, for any orders at all, is the book with every order's allocation traded.
  lemma {:induction false} MatchAllocates(prod: bool, book: seq<Order>, aggr: Order)
    ensures Match(prod, book, aggr).book == AllocatedBook(prod, book, aggr, |book|)
    decreases |book|
  {
    var best := Best(prod, book, aggr);
    assert best.Some? ==> best.value < |book|;
    hide Match, IsBest, AllocatedBook, Best;
    if best.None? {
      NothingAllocated(prod, book, aggr, |book|);
      assert book[..|book|] == book;
      MatchNothing(prod, book, aggr);
    } else {
      var p := best.value;
      if aggr.qtyRemaining <= book[p].qtyRemaining {
        LastTradeAllocates(prod, book, aggr, p);
      } else {
        MatchAfterFill(prod, book, aggr, p);
        MatchAllocates(prod, book[..p] + book[p + 1..], Fill(aggr, book[p].qtyRemaining));
        AllocatesAfterFill(prod, book, aggr, p);
      }
    }
  }

  // ----- Totals

  lemma QtyAtWidens(prod: bool, part: seq<Order>, aggr: Order, level: int, strictly: bool, level': int, strictly': bool)
    requires Better(aggr.side, level, level') || (level == level' && (strictly || !strictly'))
    ensures QtyAt(prod, part, aggr, level, strictly) <= QtyAt(prod, part, aggr, level', strictly')
  {
  }

  function EligibleQty(prod: bool, book: seq<Order>, aggr: Order): nat {
    if book == [] then 0
    else EligibleQty(prod, book[1..], aggr) + if Eligible(prod, aggr, book[0]) then book[0].qtyRemaining else 0
  }

  lemma EligibleQtySplit(prod: bool, book: seq<Order>, p: nat, aggr: Order, aggr': Order)
    requires p < |book| && aggr' == aggr.(qtyRemaining := aggr'.qtyRemaining, status := aggr'.status)
    requires Eligible(prod, aggr, book[p])
    ensures EligibleQty(prod, book, aggr) == book[p].qtyRemaining + EligibleQty(prod, book[..p] + book[p + 1..], aggr')
  {
    var book' := book[..p] + book[p + 1..];
    if p == 0 {
      assert book' == book[1..];
      EligibleQtyOfRest(prod, book', aggr, aggr');
    } else {
      assert book'[1..] == book[1..][..p - 1] + book[1..][p..];
      EligibleQtySplit(prod, book[1..], p - 1, aggr, aggr');
    }
  }

  lemma EligibleQtyOfRest(prod: bool, book: seq<Order>, aggr: Order, aggr': Order)
    requires aggr' == aggr.(qtyRemaining := aggr'.qtyRemaining, status := aggr'.status)
    ensures EligibleQty(prod, book, aggr) == EligibleQty(prod, book, aggr')
  {
  }

  lemma NoEligibleQty(prod: bool, book: seq<Order>, aggr: Order)
    requires forall x :: 0 <= x < |book| ==> !Eligible(prod, aggr, book[x])
    ensures EligibleQty(prod, book, aggr) == 0
  {
  }

  // A match trades the smaller of what came in and what could be taken.
  lemma {:induction false} MatchTradesAllItCan(prod: bool, book: seq<Order>, aggr: Order)
    ensures Match(prod, book, aggr).aggr.qtyRemaining ==
      aggr.qtyRemaining - Min(aggr.qtyRemaining, EligibleQty(prod, book, aggr))
    decreases |book|
  {
    var best := Best(prod, book, aggr);
    if best.None? {
      NoEligibleQty(prod, book, aggr);
    } else {
      var p := best.value;
      var q := TradeQty(book, aggr, p);
      EligibleQtySplit(prod, book, p, aggr, Fill(aggr, q));
      if q < aggr.qtyRemaining {
        MatchTradesAllItCan(prod, AfterTrade(book, p, q), Fill(aggr, q));
      }
    }
  }
}
