/** Fixed-point prices and quantities: conversion between decimals and ticks of 0.0001. Decimals
    are exact reals here. */
module Prices {
  import opened Options
  const MAX_PRICE_TICKS: int := 0xFFFF_FFFF
  const MIN_PRICE_TICKS: int := 1
  const MAX_QTY: int := 0x3FFF_FFFF_FFFF_FFFF

  type Price = x: int | 0 <= x <= MAX_PRICE_TICKS

  /** Rounds to the nearest integer, ties to even. */
  function Round(x: real): int {
    var f := x.Floor;
    var rest := x - f as real;
    if rest < 0.5 then f
    else if rest > 0.5 then f + 1
    else if f % 2 == 0 then f
    else f + 1
  }

  /** None stands for the error "too large or negative", of the rounded value; a price that rounds to 0 becomes 1. */
  function DecimalToPrice(d: real): Option<Price> {
    var r := Round(d * 10000.0);
    if r < 0 || r > MAX_PRICE_TICKS then None
    else if r < MIN_PRICE_TICKS then Some(MIN_PRICE_TICKS)
    else Some(r)
  }

  function PriceToDecimal(ticks: Price): real {
    ticks as real / 10000.0
  }

  function DecimalToQty(d: real): Option<int> {
    var r := Round(d * 10000.0);
    if r > MAX_QTY || r < -MAX_QTY then None else Some(r)
  }

  function QtyToDecimal(units: int): real {
    units as real / 10000.0
  }

  predicate IsPriceTickAligned(d: real, tickSize: real) {
    match (DecimalToPrice(tickSize), DecimalToPrice(d))
    case (Some(tick), Some(price)) => tick == 0 || price % tick == 0
    case _ => false
  }

  /** The integer check of the fast path; a tick size of 0 allows every price. */
  predicate TickAllows(tick: Option<Price>, price: Price) {
    tick.None? || tick.value == 0 || price % tick.value == 0
  }

  /** Rounding is the nearest integer: never further than a half, and even on a tie. */
  lemma {:induction false} RoundNearest(x: real)
    ensures x - 0.5 <= Round(x) as real <= x + 0.5
    ensures Round(x) as real == x - 0.5 || Round(x) as real == x + 0.5 ==> Round(x) % 2 == 0
  {
    var f := x.Floor;
    assert f as real <= x < f as real + 1.0;
  }

  lemma {:induction false} RoundMonotone(x: real, y: real)
    requires x <= y
    ensures Round(x) <= Round(y)
  {
    RoundNearest(x);
    RoundNearest(y);
    if x < y {
      assert Round(x) as real - Round(y) as real < 1.0;
    }
  }

  lemma {:induction false} RoundInteger(n: int)
    ensures Round(n as real) == n
  {
    RoundNearest(n as real);
  }

  /** The prices from zero up that fit: all below half a tick above the greatest price, which rounds
      beyond it. What is more than half a tick below zero does not. */
  lemma {:induction false} PriceFits(d: real)
    ensures d >= 0.0 ==> (DecimalToPrice(d).Some? <==> d < 429496.72955)
    ensures d < -0.00005 ==> DecimalToPrice(d).None?
  {
    var x := d * 10000.0;
    assert d < 429496.72955 <==> x < 4294967295.5;
    assert d < -0.00005 <==> x < -0.5;
    RoundNearest(x);
  }

  /** Quantisation keeps the order of prices, and what it accepts it accepts downwards to zero. */
  lemma {:induction false} PriceMonotone(a: real, b: real)
    requires a <= b && DecimalToPrice(b).Some?
    ensures a >= 0.0 ==> DecimalToPrice(a).Some?
    ensures DecimalToPrice(a).Some? ==> DecimalToPrice(a).value <= DecimalToPrice(b).value
  {
    PriceFits(a);
    PriceFits(b);
    RoundMonotone(a * 10000.0, b * 10000.0);
  }

  predicate OffByHalf(x: real, d: real) {
    x == d - 0.00005 || x == d + 0.00005
  }

  /** A quantity moves by at most half a unit, and a tie goes to the even one. */
  lemma {:induction false} QtyWithinHalfUnit(d: real)
    requires DecimalToQty(d).Some?
    ensures -0.00005 <= QtyToDecimal(DecimalToQty(d).value) - d <= 0.00005
    ensures OffByHalf(QtyToDecimal(DecimalToQty(d).value), d) ==> DecimalToQty(d).value % 2 == 0
  {
    RoundNearest(d * 10000.0);
  }

  /** The quantities that fit: those nearer to the range than half a unit. */
  lemma {:induction false} QtyFits(d: real)
    ensures DecimalToQty(d).Some? <==> -(MAX_QTY as real) - 0.5 < d * 10000.0 < MAX_QTY as real + 0.5
  {
    RoundNearest(d * 10000.0);
  }

  /** A price of at least half a tick moves by at most half a tick, a tie going to the even
      one; a smaller one becomes one tick. */
  lemma {:induction false} PriceWithinHalfTick(d: real)
    requires DecimalToPrice(d).Some?
    ensures d >= 0.00005 ==> -0.00005 <= PriceToDecimal(DecimalToPrice(d).value) - d <= 0.00005
    ensures d < 0.00005 ==> DecimalToPrice(d).value == MIN_PRICE_TICKS
    ensures d > 0.00005 && OffByHalf(PriceToDecimal(DecimalToPrice(d).value), d) ==> DecimalToPrice(d).value % 2 == 0
  {
    RoundNearest(d * 10000.0);
    if d < 0.00005 {
      assert d * 10000.0 < 0.5;
      assert (Round(d * 10000.0)) as real < 1.0;
    }
  }

  /** Every price in ticks survives the way to a decimal and back; only 0 becomes 1. */
  lemma {:induction false} PriceRoundTrip(ticks: Price)
    ensures DecimalToPrice(PriceToDecimal(ticks)) == Some(if ticks == 0 then 1 else ticks)
  {
    assert PriceToDecimal(ticks) * 10000.0 == ticks as real;
    RoundInteger(ticks);
  }

  lemma {:induction false} QtyRoundTrip(units: int)
    ensures DecimalToQty(QtyToDecimal(units)) == if -MAX_QTY <= units <= MAX_QTY then Some(units) else None
  {
    assert QtyToDecimal(units) * 10000.0 == units as real;
    RoundInteger(units);
  }

  /** The decimal tick check and the integer tick check accept the same prices for every tick size. */
  lemma {:induction false} TickChecksAgree(d: real, tick: Price)
    ensures IsPriceTickAligned(d, PriceToDecimal(tick)) <==>
            DecimalToPrice(d).Some? && TickAllows(Some(tick), DecimalToPrice(d).value)
  {
    PriceRoundTrip(tick);
    if tick == 0 && DecimalToPrice(d).Some? {
      assert DecimalToPrice(d).value % 1 == 0;
    }
  }
}
