/** The price grid: prices in dollars against indices of the level vectors. */
module Ticks {
  import opened TradingTypes

  const TICK_SIZE: Price := 0.01
  const TICKS_PER_DOLLAR: int := (1.0 / TICK_SIZE).Floor
  const MIN_ALLOWED_PRICE: Price := TICK_SIZE
  const MAX_ALLOWED_PRICE: Price := 100.0

  // Both level vectors are resized once, to this many levels.
  const NUM_LEVELS: int := ((MAX_ALLOWED_PRICE - MIN_ALLOWED_PRICE + 1.0) * TICKS_PER_DOLLAR as real).Floor

  lemma LevelCount()
    ensures NUM_LEVELS == 10099
  {
    assert TICKS_PER_DOLLAR == 100;
  }

  // A cast to an integer truncates towards zero.
  function Truncate(x: real): int {
    if 0.0 <= x then x.Floor else -(-x).Floor
  }

  function PriceToIndex(price: Price): int {
    Truncate(price * TICKS_PER_DOLLAR as real + 0.5)
  }

  function IndexToPrice(index: int): Price {
    index as real * TICK_SIZE
  }

  /** A limit price that passes the gateway's validation. */
  predicate ValidLimitPrice(price: Price) {
    MIN_ALLOWED_PRICE <= price <= MAX_ALLOWED_PRICE
  }

  // PriceToIndex rounds to the nearest tick: a price maps to a level exactly when the
  // level's own price is within half a tick of it (a tie goes to the higher level).
  lemma NearestTick(price: Price, index: nat)
    requires 0.0 <= price
    ensures PriceToIndex(price) == index <==>
      IndexToPrice(index) - TICK_SIZE / 2.0 <= price < IndexToPrice(index) + TICK_SIZE / 2.0
  {
    assert TICKS_PER_DOLLAR == 100;
    var x := price * 100.0 + 0.5;
    assert x.Floor as real <= x < x.Floor as real + 1.0;
    assert x.Floor == index <==> index as real <= x < index as real + 1.0;
  }

  // Every validated limit price has a level, and never the level of price zero.
  lemma ValidPricesHaveLevels(price: Price)
    requires ValidLimitPrice(price)
    ensures 1 <= PriceToIndex(price) < NUM_LEVELS
  {
    assert TICKS_PER_DOLLAR == 100;
    assert NUM_LEVELS == 10099;
  }

  lemma Monotone(p: Price, q: Price)
    requires 0.0 <= p <= q
    ensures PriceToIndex(p) <= PriceToIndex(q)
  {
    assert TICKS_PER_DOLLAR == 100;
  }

  lemma IndexRoundTrip(index: nat)
    ensures 0.0 <= IndexToPrice(index)
    ensures PriceToIndex(IndexToPrice(index)) == index
  {
    NearestTick(IndexToPrice(index), index);
  }
}
