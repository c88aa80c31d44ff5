/** Maker and taker amounts of orders. A decimal is a pair of units and scale, as the decimal
    library keeps it, because the source looks at scales. */
module OrderAmounts {
  import opened Options
  import opened Arithmetic
  import opened OrderBook

  /** The value `units` / 10^`scale`. */
  datatype Dec = Dec(units: int, scale: nat)

  datatype Strategy = ToZero | AwayFromZero | MidpointTowardZero

  function Pow10(n: nat): (p: int)
    ensures p >= 1
  {
    if n == 0 then 1 else 10 * Pow10(n - 1)
  }

  /** The magnitude `x` in steps of `m`, rounded by the strategy. */
  function Steps(x: nat, m: int, s: Strategy): nat
    requires m > 0
  {
    match s
    case ToZero => x / m
    case AwayFromZero => (x + m - 1) / m
    case MidpointTowardZero => (2 * x + m - 1) / (2 * m)
  }

  function Rounded(x: int, m: int, s: Strategy): int
    requires m > 0
  {
    if x >= 0 then Steps(x, m, s) else -(Steps(-x, m, s) as int)
  }

  /** `round_dp_with_strategy`: a decimal with no more digits than asked for is left alone. */
  function RoundDp(d: Dec, dp: nat, s: Strategy): (r: Dec)
    ensures r.scale <= dp
    ensures d.scale <= dp ==> r == d
  {
    if d.scale <= dp then d else Dec(Rounded(d.units, Pow10(d.scale - dp), s), dp)
  }

  function Mul(a: Dec, b: Dec): Dec {
    Dec(a.units * b.units, a.scale + b.scale)
  }

  datatype RoundConfig = RoundConfig(price: nat, size: nat, amount: nat)

  predicate SameValue(a: Dec, b: Dec) {
    a.units * Pow10(b.scale) == b.units * Pow10(a.scale)
  }

  /** The rounding table; an unknown tick size is a missing key. */
  function RoundingConfig(tick: Dec): (r: Option<RoundConfig>)
    ensures r.Some? ==> r.value.amount == r.value.price + r.value.size && r.value.size == 2 && r.value.amount <= 6
  {
    if SameValue(tick, Dec(1, 1)) then Some(RoundConfig(1, 2, 3))
    else if SameValue(tick, Dec(1, 2)) then Some(RoundConfig(2, 2, 4))
    else if SameValue(tick, Dec(1, 3)) then Some(RoundConfig(3, 2, 5))
    else if SameValue(tick, Dec(1, 4)) then Some(RoundConfig(4, 2, 6))
    else None
  }

  function FixAmountRounding(amount: Dec, c: RoundConfig): Dec {
    if amount.scale > c.amount then
      var away := RoundDp(amount, c.amount + 4, AwayFromZero);
      if away.scale > c.amount then RoundDp(away, c.amount, ToZero) else away
    else amount
  }

  const U32_MAX: int := 0xFFFF_FFFF

  /** Millionths as a 32-bit number; None is the panic on a value that does not fit. */
  function DecimalToToken(amount: Dec): Option<int> {
    var scaled := Mul(Dec(1_000_000, 0), amount);
    var whole := if scaled.scale > 0 then RoundDp(scaled, 0, MidpointTowardZero) else scaled;
    if 0 <= whole.units <= U32_MAX then Some(whole.units) else None
  }

  function Both(maker: Dec, taker: Dec): Option<(int, int)> {
    match (DecimalToToken(maker), DecimalToToken(taker))
    case (Some(m), Some(t)) => Some((m, t))
    case _ => None
  }

  /** Maker and taker amount of a limit order. */
  function GetOrderAmounts(side: Side, size: Dec, price: Dec, c: RoundConfig): Option<(int, int)> {
    var rawPrice := RoundDp(price, c.price, MidpointTowardZero);
    var shares := RoundDp(size, c.size, ToZero);
    var money := FixAmountRounding(Mul(shares, rawPrice), c);
    match side
    case BUY => Both(money, shares)
    case SELL => Both(shares, money)
  }

  /** Maker and taker amount of a market order. Division is a parameter; None is the panic on a
      price that rounds to zero or an amount that does not fit. */
  function GetMarketOrderAmounts(amount: Dec, price: Dec, c: RoundConfig, divide: (Dec, Dec) -> Dec)
    : Option<(int, int)>
  {
    var money := RoundDp(amount, c.size, ToZero);
    var rawPrice := RoundDp(price, c.price, MidpointTowardZero);
    if rawPrice.units == 0 then None
    else Both(money, FixAmountRounding(divide(money, rawPrice), c))
  }

  // ---------------------------------------------------------------- powers and scales

  lemma {:induction false} Pow10Add(a: nat, b: nat)
    ensures Pow10(a + b) == Pow10(a) * Pow10(b)
  {
    if a > 0 {
      Pow10Add(a - 1, b);
      assert 10 * (Pow10(a - 1) * Pow10(b)) == 10 * Pow10(a - 1) * Pow10(b);
    }
  }

  /** The units of a decimal at a finer scale. */
  function At(d: Dec, scale: nat): int
    requires d.scale <= scale
  {
    d.units * Pow10(scale - d.scale)
  }

  // ---------------------------------------------------------------- what the roundings do

  /** `r` is `d` to `dp` digits: within half a unit of the last digit, a tie going toward zero. */
  predicate NearestDigits(d: Dec, dp: nat, r: Dec) {
    if d.scale <= dp then r == d
    else
      && r.scale == dp
      && var m := Pow10(d.scale - dp);
      if d.units >= 0 then 2 * d.units - m <= 2 * (r.units * m) < 2 * d.units + m
      else 2 * d.units - m < 2 * (r.units * m) <= 2 * d.units + m
  }

  /** `r` is `d` cut to `dp` digits: nearer to zero by less than a unit of the last digit. */
  predicate CutToDigits(d: Dec, dp: nat, r: Dec) {
    if d.scale <= dp then r == d
    else
      && r.scale == dp
      && var m := Pow10(d.scale - dp);
      if d.units >= 0 then d.units - m < r.units * m <= d.units else d.units <= r.units * m < d.units + m
  }

  lemma {:induction false} MidpointBounds(x: nat, m: int)
    requires m > 0
    ensures 2 * x - m <= 2 * (Steps(x, m, MidpointTowardZero) * m) < 2 * x + m
  {
    var t := 2 * x + m - 1;
    var q := t / (2 * m);
    assert t == q * (2 * m) + t % (2 * m);
    assert q * (2 * m) == 2 * (q * m);
  }

  lemma {:induction false} FloorBounds(x: nat, m: int)
    requires m > 0
    ensures Steps(x, m, ToZero) * m <= x < Steps(x, m, ToZero) * m + m
  {
    assert x == (x / m) * m + x % m;
  }

  lemma {:induction false} MinusTimes(x: int, y: int)
    ensures (-x) * y == -(x * y)
  {
  }

  /** A price is rounded to the nearest, a size is cut. */
  lemma {:induction false} RoundingsMean(d: Dec, dp: nat)
    ensures NearestDigits(d, dp, RoundDp(d, dp, MidpointTowardZero))
    ensures CutToDigits(d, dp, RoundDp(d, dp, ToZero))
  {
    hide Steps, Pow10;
    if d.scale > dp {
      var m := Pow10(d.scale - dp);
      var x := if d.units >= 0 then d.units else -d.units;
      MidpointBounds(x, m);
      FloorBounds(x, m);
      MinusTimes(Steps(x, m, MidpointTowardZero), m);
      MinusTimes(Steps(x, m, ToZero), m);
    }
  }

  /** The table has a row for the tick sizes 0.1 to 0.0001 by value and for no other: as many price
      digits as the tick has, two for sizes, and their sum for amounts. */
  lemma {:induction false} ConfigOfTick(tick: Dec, c: RoundConfig)
    ensures RoundingConfig(tick) == Some(c) <==>
              1 <= c.price <= 4 && SameValue(tick, Dec(1, c.price)) && c.size == 2 && c.amount == c.price + 2
    ensures RoundingConfig(tick).None? <==> forall p | 1 <= p <= 4 :: !SameValue(tick, Dec(1, p))
  {
    PowersApart();
    if tick.units != 0 {
      forall p, q | 1 <= p < q <= 4 ensures !(SameValue(tick, Dec(1, p)) && SameValue(tick, Dec(1, q))) {
        DifferentTicks(tick, p, q);
      }
    }
    assert Pow10(tick.scale) >= 1;
  }

  lemma {:induction false} PowersApart()
    ensures Pow10(1) == 10 && Pow10(2) == 100 && Pow10(3) == 1000 && Pow10(4) == 10_000
  {
    assert Pow10(1) == 10;
    assert Pow10(2) == 100;
    assert Pow10(3) == 1000;
  }

  lemma {:induction false} DifferentTicks(tick: Dec, p: nat, q: nat)
    requires tick.units != 0 && 1 <= p < q <= 4
    ensures !(SameValue(tick, Dec(1, p)) && SameValue(tick, Dec(1, q)))
  {
    PowersApart();
  }

  // ---------------------------------------------------------------- limit orders

  lemma {:induction false} Pow10Million()
    ensures Pow10(6) == 1_000_000
  {
    assert Pow10(1) == 10;
    assert Pow10(2) == 100;
    assert Pow10(3) == 1000;
    assert Pow10(4) == 10_000;
    assert Pow10(5) == 100_000;
  }

  lemma {:induction false} ExactSteps(x: nat, m: int)
    requires m > 0
    ensures Steps(x * m, m, ToZero) == x
    ensures Steps(x * m, m, AwayFromZero) == x
    ensures Steps(x * m, m, MidpointTowardZero) == x
  {
    DivUnique(x * m, m, x, 0);
    DivUnique(x * m + m - 1, m, x, m - 1);
    assert 2 * (x * m) + m - 1 == x * (2 * m) + (m - 1);
    DivUnique(2 * (x * m) + m - 1, 2 * m, x, m - 1);
  }

  lemma {:induction false} ExactRounded(x: int, m: int, s: Strategy)
    requires m > 0
    ensures Rounded(x * m, m, s) == x
  {
    if x >= 0 {
      ExactSteps(x, m);
      assert x * m >= 0;
    } else {
      ExactSteps(-x, m);
      assert -(x * m) == (-x) * m;
      MulAtLeast(-x, m);
    }
  }

  /** A decimal of at most six digits becomes exactly its millionths. */
  lemma {:induction false} TokenExact(d: Dec)
    requires d.scale <= 6
    ensures DecimalToToken(d) == if 0 <= At(d, 6) <= U32_MAX then Some(At(d, 6)) else None
  {
    Pow10Million();
    Pow10Add(d.scale, 6 - d.scale);
    assert 1_000_000 * d.units == At(d, 6) * Pow10(d.scale) by {
      MulSwap(d.units, Pow10(d.scale), Pow10(6 - d.scale));
    }
    if d.scale > 0 {
      ExactRounded(At(d, 6), Pow10(d.scale), MidpointTowardZero);
    } else {
      assert Pow10(0) == 1;
    }
  }

  lemma {:induction false} MulSwap(u: int, a: int, b: int)
    ensures a * b * u == u * b * a
  {
    assert a * b * u == u * (a * b) == u * (b * a) == u * b * a;
  }

  /** The digits allow the product: nothing is rounded away from a limit order's money amount. */
  lemma {:induction false} LimitProductNotRounded(size: Dec, price: Dec, c: RoundConfig)
    requires c.amount == c.price + c.size
    ensures var product := Mul(RoundDp(size, c.size, ToZero), RoundDp(price, c.price, MidpointTowardZero));
            FixAmountRounding(product, c) == product
  {
  }

  /** Main result: in all four tick configurations the amounts of a limit order are exact. The share
      amount is the size cut to its digits, and money divided by shares is exactly the rounded price;
      the only way to fail is an amount that is negative or does not fit 32 bits. */
  lemma {:induction false} LimitAmountsExact(side: Side, size: Dec, price: Dec, tick: Dec)
    requires RoundingConfig(tick).Some?
    ensures var c := RoundingConfig(tick).value;
            var rawPrice := RoundDp(price, c.price, MidpointTowardZero);
            var shares := RoundDp(size, c.size, ToZero);
            var r := GetOrderAmounts(side, size, price, c);
            && NearestDigits(price, c.price, rawPrice) && CutToDigits(size, c.size, shares)
            && (r.Some? <==> 0 <= At(shares, 6) <= U32_MAX && 0 <= At(Mul(shares, rawPrice), 6) <= U32_MAX)
            && (r.Some? ==>
                  var (money, tokens) := if side.BUY? then r.value else (r.value.1, r.value.0);
                  tokens == At(shares, 6) && money * Pow10(rawPrice.scale) == tokens * rawPrice.units)
  {
    var c := RoundingConfig(tick).value;
    var rawPrice := RoundDp(price, c.price, MidpointTowardZero);
    var shares := RoundDp(size, c.size, ToZero);
    RoundingsMean(price, c.price);
    RoundingsMean(size, c.size);
    LimitProductNotRounded(size, price, c);
    TokenExact(shares);
    TokenExact(Mul(shares, rawPrice));
    PriceOfAmounts(shares, rawPrice);
  }

  lemma {:induction false} PriceOfAmounts(shares: Dec, price: Dec)
    requires shares.scale + price.scale <= 6
    ensures At(Mul(shares, price), 6) * Pow10(price.scale) == At(shares, 6) * price.units
  {
    var rest := 6 - shares.scale - price.scale;
    Pow10Add(rest, price.scale);
    assert rest + price.scale == 6 - shares.scale;
    var (s, p, k, q) := (shares.units, price.units, Pow10(rest), Pow10(price.scale));
    Shuffle(s, p, k, q);
  }

  lemma {:induction false} Shuffle(s: int, p: int, k: int, q: int)
    ensures s * p * k * q == s * (k * q) * p
  {
    var kq := k * q;
    assert s * p * k * q == s * p * kq;
    assert s * p * kq == s * kq * p;
  }

  // ---------------------------------------------------------------- market orders

  /** The value of `FixAmountRounding` in steps of 10^-amount, for a magnitude in steps of
      10^-(amount + k + 4): up to the next 10^-(amount + 4), then down. */
  function FixedSteps(x: nat, m: int): nat
    requires m > 0
  {
    Steps(Steps(x, m, AwayFromZero), 10_000, ToZero)
  }

  lemma {:induction false} FixedStepsBounds(x: nat, m: int)
    requires m > 0
    ensures var r := FixedSteps(x, m) * (10_000 * m);
            x - 10_000 * m < r < x + m
  {
    var up := Steps(x, m, AwayFromZero);
    CeilBounds(x, m);
    var r := up / 10_000;
    assert up - 10_000 < r * 10_000 <= up;
    MulOrder(r * 10_000, up, m);
    MulOrder(up - 9_999, r * 10_000, m);
    assert r * 10_000 * m == r * (10_000 * m);
    assert (up - 9_999) * m == up * m - 9_999 * m;
  }

  lemma {:induction false} MulOrder(x: int, y: int, m: int)
    requires x <= y && m > 0
    ensures x * m <= y * m
  {
    assert (y - x) * m >= 0;
  }

  lemma {:induction false} CeilBounds(x: nat, m: int)
    requires m > 0
    ensures x <= Steps(x, m, AwayFromZero) * m < x + m
  {
    var t := x + m - 1;
    assert t == (t / m) * m + t % m;
  }

  /** The steps are those of the value itself: the value is more than a small step above the result's
      own beginning, and not beyond its last small step. */
  lemma {:induction false} FixedStepsExact(x: nat, m: int)
    requires m > 0
    ensures var r := FixedSteps(x, m); (r * 10_000 - 1) * m < x <= (r * 10_000 + 9_999) * m
  {
    var up := Steps(x, m, AwayFromZero);
    CeilBounds(x, m);
    var r := up / 10_000;
    assert r * 10_000 <= up <= r * 10_000 + 9_999;
    MulOrder(r * 10_000 - 1, up - 1, m);
    MulOrder(up, r * 10_000 + 9_999, m);
    assert (up - 1) * m == up * m - m;
  }

  lemma {:induction false} FixedStepsMonotone(x: nat, y: nat, m: int)
    requires m > 0 && x <= y
    ensures FixedSteps(x, m) <= FixedSteps(y, m)
  {
    DivMonotone(x + m - 1, y + m - 1, m);
    DivMonotone(Steps(x, m, AwayFromZero), Steps(y, m, AwayFromZero), 10_000);
  }

  lemma {:induction false} FloorUnique(x: nat, m: int, q: nat)
    requires m > 0 && q * m <= x < q * m + m
    ensures Steps(x, m, ToZero) == q
  {
    DivUnique(x, m, q, x - q * m);
  }

  lemma {:induction false} CeilUnique(x: nat, m: int, q: nat)
    requires m > 0 && x <= q * m < x + m
    ensures Steps(x, m, AwayFromZero) == q
  {
    DivUnique(x + m - 1, m, q, x + m - 1 - q * m);
  }

  lemma {:induction false} ScaleProduct(q: int, m: int, k: int)
    requires m > 0 && k > 0
    ensures q * (m * k) == q * m * k && m * k > 0
  {
    assert q * (m * k) == q * m * k;
    MulAtLeast(m, k);
  }

  /** Rounding does not depend on the scale a value is written at. */
  lemma {:induction false} FloorScale(x: nat, m: int, k: int)
    requires m > 0 && k > 0
    ensures m * k > 0 && x * k >= 0 && Steps(x * k, m * k, ToZero) == Steps(x, m, ToZero)
  {
    hide Steps;
    var q := Steps(x, m, ToZero);
    FloorBounds(x, m);
    ScaleProduct(q, m, k);
    ScaleBounds(q * m, x, x + 1, q * m + m, k);
    ExpandSum(q * m, m, k);
    ExpandSum(x, 1, k);
    FloorUnique(x * k, m * k, q);
  }

  lemma {:induction false} CeilScale(x: nat, m: int, k: int)
    requires m > 0 && k > 0
    ensures m * k > 0 && x * k >= 0 && Steps(x * k, m * k, AwayFromZero) == Steps(x, m, AwayFromZero)
  {
    hide Steps;
    var q := Steps(x, m, AwayFromZero);
    CeilBounds(x, m);
    ScaleProduct(q, m, k);
    ScaleBounds(x, q * m, q * m + 1, x + m, k);
    ExpandSum(q * m, 1, k);
    ExpandSum(x, m, k);
    CeilUnique(x * k, m * k, q);
  }

  lemma {:induction false} ScaleBounds(a: nat, b: nat, c: int, d: int, k: int)
    requires a <= b && c <= d && k > 0
    ensures 0 <= a * k <= b * k && c * k <= d * k
  {
    MulOrder(0, a, k);
    MulOrder(a, b, k);
    MulOrder(c, d, k);
  }

  lemma {:induction false} ExpandSum(a: int, b: int, k: int)
    ensures (a + b) * k == a * k + b * k
  {
  }

  // ---------------------------------------------------------------- fixing amounts, by value

  /** The magnitude `x` at scale `n`, fixed to `amount` digits: the result in steps of 10^-amount. */
  function FixedAt(x: int, n: nat, amount: nat): int
    requires n >= amount + 4
  {
    if x >= 0 then FixedSteps(x, Pow10(n - amount - 4)) else -(FixedSteps(-x, Pow10(n - amount - 4)) as int)
  }

  /** Whatever scale a decimal is kept at, fixing it depends on its value alone. */
  lemma {:induction false} FixByValue(d: Dec, c: RoundConfig, n: nat)
    requires n >= c.amount + 4 && n >= d.scale
    ensures var r := FixAmountRounding(d, c);
            r.scale <= c.amount && At(r, c.amount) == FixedAt(At(d, n), n, c.amount)
  {
    if d.units >= 0 {
      FixMagnitude(d, c, n);
    } else {
      var e := Dec(-d.units, d.scale);
      FixMagnitude(e, c, n);
      FixNegated(d, c);
      NegAt(d, n);
      NegAt(FixAmountRounding(d, c), c.amount);
      MulAtLeast(-d.units, Pow10(n - d.scale));
    }
  }

  lemma {:induction false} NegAt(d: Dec, n: nat)
    requires d.scale <= n
    ensures At(Dec(-d.units, d.scale), n) == -At(d, n)
  {
  }

  lemma {:induction false} RoundedNegated(x: int, m: int, s: Strategy)
    requires m > 0
    ensures Rounded(-x, m, s) == -Rounded(x, m, s)
  {
    if x == 0 {
      match s
      case ToZero => DivUnique(0, m, 0, 0);
      case AwayFromZero => DivUnique(m - 1, m, 0, m - 1);
      case MidpointTowardZero => DivUnique(m - 1, 2 * m, 0, m - 1);
    }
  }

  /** Fixing treats a negative amount as the mirror image of the positive one. */
  lemma {:induction false} FixNegated(d: Dec, c: RoundConfig)
    ensures var (r, e) := (FixAmountRounding(d, c), FixAmountRounding(Dec(-d.units, d.scale), c));
            e == Dec(-r.units, r.scale)
  {
    if d.scale > c.amount {
      if d.scale > c.amount + 4 { RoundedNegated(d.units, Pow10(d.scale - c.amount - 4), AwayFromZero); }
      var away := RoundDp(d, c.amount + 4, AwayFromZero);
      if away.scale > c.amount { RoundedNegated(away.units, Pow10(away.scale - c.amount), ToZero); }
    }
  }

  /** Writing a decimal at a finer scale in two steps. */
  lemma {:induction false} AtSplit(d: Dec, s: nat, n: nat)
    requires d.scale <= s <= n
    ensures At(d, n) == At(d, s) * Pow10(n - s)
    ensures d.units >= 0 ==> At(d, s) >= 0
  {
    Pow10Add(s - d.scale, n - s);
    assert s - d.scale + (n - s) == n - d.scale;
    MulAssociative(d.units, Pow10(s - d.scale), Pow10(n - s));
    if d.units >= 0 { MulOrder(0, d.units, Pow10(s - d.scale)); }
  }

  lemma {:induction false} MulAssociative(x: int, y: int, z: int)
    ensures x * (y * z) == x * y * z
  {
  }

  lemma {:induction false} FixedOfWhole(y: nat, m: int)
    requires m > 0
    ensures y * m >= 0 && FixedSteps(y * m, m) == Steps(y, 10_000, ToZero)
  {
    MulOrder(0, y, m);
    ExactSteps(y, m);
  }

  /** Both roundings work. */
  lemma {:induction false} FixFine(d: Dec, c: RoundConfig, n: nat)
    requires d.units >= 0 && n >= d.scale > c.amount + 4
    ensures At(d, n) >= 0
    ensures FixAmountRounding(d, c) == Dec(FixedSteps(At(d, n), Pow10(n - c.amount - 4)), c.amount)
  {
    var (m, k) := (Pow10(d.scale - c.amount - 4), Pow10(n - d.scale));
    FixFineUnits(d, c);
    Pow10Add(d.scale - c.amount - 4, n - d.scale);
    assert d.scale - c.amount - 4 + (n - d.scale) == n - c.amount - 4;
    CeilScale(d.units, m, k);
  }

  lemma {:induction false} FixFineUnits(d: Dec, c: RoundConfig)
    requires d.units >= 0 && d.scale > c.amount + 4
    ensures FixAmountRounding(d, c) == Dec(FixedSteps(d.units, Pow10(d.scale - c.amount - 4)), c.amount)
  {
    PowFour();
  }

  /** Only the second rounding works: the value is a whole number of the first one's steps. */
  lemma {:induction false} FixMiddle(d: Dec, c: RoundConfig, n: nat)
    requires d.units >= 0 && n >= c.amount + 4 >= d.scale > c.amount
    ensures At(d, n) >= 0
    ensures FixAmountRounding(d, c) == Dec(FixedSteps(At(d, n), Pow10(n - c.amount - 4)), c.amount)
  {
    var a := c.amount;
    AtSplit(d, a + 4, n);
    FixedOfWhole(At(d, a + 4), Pow10(n - a - 4));
    PowFour();
    Pow10Add(d.scale - a, a + 4 - d.scale);
    FloorScale(d.units, Pow10(d.scale - a), Pow10(a + 4 - d.scale));
  }

  /** No rounding works. */
  lemma {:induction false} FixCoarse(d: Dec, c: RoundConfig, n: nat)
    requires d.units >= 0 && n >= c.amount + 4 && c.amount >= d.scale
    ensures At(d, n) >= 0 && FixAmountRounding(d, c) == d
    ensures At(d, c.amount) == FixedSteps(At(d, n), Pow10(n - c.amount - 4))
  {
    var a := c.amount;
    AtSplit(d, a + 4, n);
    FixedOfWhole(At(d, a + 4), Pow10(n - a - 4));
    PowFour();
    AtSplit(d, a, a + 4);
    ExactSteps(At(d, a), 10_000);
  }

  lemma {:induction false} AtSelf(d: Dec)
    ensures At(d, d.scale) == d.units
  {
    assert Pow10(0) == 1;
  }

  lemma {:induction false} FixMagnitude(d: Dec, c: RoundConfig, n: nat)
    requires d.units >= 0 && n >= c.amount + 4 && n >= d.scale
    ensures var r := FixAmountRounding(d, c);
            && r.scale <= c.amount && At(d, n) >= 0
            && At(r, c.amount) == FixedSteps(At(d, n), Pow10(n - c.amount - 4))
  {
    hide FixAmountRounding, FixedSteps, At, Pow10;
    if d.scale > c.amount + 4 {
      FixFine(d, c, n);
      AtSelf(FixAmountRounding(d, c));
    } else if d.scale > c.amount {
      FixMiddle(d, c, n);
      AtSelf(FixAmountRounding(d, c));
    } else {
      FixCoarse(d, c, n);
    }
  }

  lemma {:induction false} PowFour()
    ensures Pow10(4) == 10_000
  {
    assert Pow10(1) == 10;
    assert Pow10(2) == 100;
    assert Pow10(3) == 1000;
  }

  /** Fixing an amount is monotone in its value, across scales and signs. */
  lemma {:induction false} FixMonotone(x: Dec, y: Dec, c: RoundConfig, n: nat)
    requires n >= c.amount + 4 && n >= x.scale && n >= y.scale && At(x, n) <= At(y, n)
    ensures var (fx, fy) := (FixAmountRounding(x, c), FixAmountRounding(y, c));
            fx.scale <= c.amount && fy.scale <= c.amount && At(fx, c.amount) <= At(fy, c.amount)
  {
    FixByValue(x, c, n);
    FixByValue(y, c, n);
    var (a, b, m) := (At(x, n), At(y, n), Pow10(n - c.amount - 4));
    if 0 <= a {
      FixedStepsMonotone(a, b, m);
    } else if b < 0 {
      FixedStepsMonotone(-b, -a, m);
    }
  }

  /** Fixing an amount twice changes nothing more. */
  lemma {:induction false} FixIdempotent(d: Dec, c: RoundConfig)
    ensures FixAmountRounding(FixAmountRounding(d, c), c) == FixAmountRounding(d, c)
  {
  }

  /** The fixed value r of an amount q: q - 10^-a < r < q + 10^-(a + 4), in units of a scale fine
      enough for both. More exactly r is the only value of a digits from 0.9999 * 10^-a below q, that
      included, to 10^-(a + 4) above it, that excluded. */
  lemma {:induction false} FixBounds(q: Dec, c: RoundConfig, n: nat)
    requires q.units >= 0 && n >= q.scale && n >= c.amount + 4
    ensures var r := FixAmountRounding(q, c);
            && r.scale <= c.amount
            && At(q, n) - Pow10(n - c.amount) < At(r, n) < At(q, n) + Pow10(n - c.amount - 4)
            && At(q, n) - 9_999 * Pow10(n - c.amount - 4) <= At(r, n)
  {
    hide FixAmountRounding, FixedSteps, At, Pow10;
    var m := Pow10(n - c.amount - 4);
    FixMagnitude(q, c, n);
    FixedStepsBounds(At(q, n), m);
    FixedStepsExact(At(q, n), m);
    PowFour();
    Pow10Add(4, n - c.amount - 4);
    ExpandSum(FixedSteps(At(q, n), m) * 10_000, 9_999, m);
    MulAssociative(FixedSteps(At(q, n), m), 10_000, m);
    AtSplit(FixAmountRounding(q, c), c.amount, n);
  }

  /** Main result for market orders: the token amount is exactly the fixed quotient in millionths, and
      the fixed quotient r is close to the quotient q. Any division may be used. */
  lemma {:induction false} MarketAmountBounds(amount: Dec, price: Dec, tick: Dec, divide: (Dec, Dec) -> Dec, n: nat)
    requires RoundingConfig(tick).Some?
    ensures var c := RoundingConfig(tick).value;
            var money := RoundDp(amount, c.size, ToZero);
            var rawPrice := RoundDp(price, c.price, MidpointTowardZero);
            var q := divide(money, rawPrice);
            var r := FixAmountRounding(q, c);
            && NearestDigits(price, c.price, rawPrice) && CutToDigits(amount, c.size, money)
            && r.scale <= c.amount
            && (GetMarketOrderAmounts(amount, price, c, divide).Some? <==>
                  rawPrice.units != 0 && 0 <= At(money, 6) <= U32_MAX && 0 <= At(r, 6) <= U32_MAX)
            && (GetMarketOrderAmounts(amount, price, c, divide).Some? ==>
                  GetMarketOrderAmounts(amount, price, c, divide).value == (At(money, 6), At(r, 6)))
            && (n >= q.scale && n >= c.amount + 4 && q.units >= 0 ==>
                  At(q, n) - Pow10(n - c.amount) < At(r, n) < At(q, n) + Pow10(n - c.amount - 4))
  {
    var c := RoundingConfig(tick).value;
    var money := RoundDp(amount, c.size, ToZero);
    var rawPrice := RoundDp(price, c.price, MidpointTowardZero);
    RoundingsMean(price, c.price);
    RoundingsMean(amount, c.size);
    hide RoundingConfig, DecimalToToken, At, Pow10, NearestDigits, CutToDigits;
    var q := divide(money, rawPrice);
    TokenExact(money);
    TokenExact(FixAmountRounding(q, c));
    if n >= q.scale && n >= c.amount + 4 && q.units >= 0 {
      FixBounds(q, c, n);
    }
  }

  /** The quotient of a division that is off by at most one unit of scale `n`. */
  predicate Divides(q: Dec, m: Dec, p: Dec, n: nat)
    requires q.scale <= n
  {
    && q.units >= 0
    && At(q, n) * (p.units * Pow10(m.scale)) - p.units * Pow10(m.scale)
       <= m.units * Pow10(p.scale + n)
       <= At(q, n) * (p.units * Pow10(m.scale)) + p.units * Pow10(m.scale)
  }

  /** What the bounds mean for the money: tokens times price is the money, less at most 10^-a and more
      at most 10^-(a + 4) tokens' worth, besides the error of the division itself. */
  lemma {:induction false} MarketOrderKeepsPrice(m: Dec, p: Dec, q: Dec, c: RoundConfig, n: nat)
    requires q.scale <= n && n >= c.amount + 4 && p.units > 0 && Divides(q, m, p, n)
    ensures var r := FixAmountRounding(q, c);
            var (unit, money) := (p.units * Pow10(m.scale), m.units * Pow10(p.scale + n));
            && r.scale <= n
            && money - unit * (Pow10(n - c.amount) + 1) <= At(r, n) * unit
            && At(r, n) * unit <= money + unit * (Pow10(n - c.amount - 4) + 1)
  {
    FixBounds(q, c, n);
    hide FixAmountRounding, At, Pow10;
    MulAtLeast(p.units, Pow10(m.scale));
    Within(At(q, n), At(FixAmountRounding(q, c), n), Pow10(n - c.amount), Pow10(n - c.amount - 4),
           p.units * Pow10(m.scale), m.units * Pow10(p.scale + n));
  }

  lemma {:induction false} Within(q: int, r: int, low: int, high: int, unit: int, money: int)
    requires unit > 0 && q - low <= r <= q + high
    requires q * unit - unit <= money <= q * unit + unit
    ensures money - unit * (low + 1) <= r * unit <= money + unit * (high + 1)
  {
    MulOrder(q - low, r, unit);
    MulOrder(r, q + high, unit);
    ExpandSum(q, -low, unit);
    ExpandSum(q, high, unit);
    ExpandSum(low, 1, unit);
    ExpandSum(high, 1, unit);
  }
}
