/** The two walks over a book, market impact and the fill engine, and why they agree. */
module MarketOrders {
  import opened Collections
  import opened Options
  import opened Prices
  import opened OrderBook
  import opened Walk

  // ---------------------------------------------------------------- the levels of a book

  lemma {:induction false} BestExists(side: Side, m: Levels)
    requires m != map[]
    ensures exists b :: IsBest(side, m, b)
  {
    var b := WorstExists(Other(side), m);
    assert IsBest(side, m, b);
  }

  /** The side whose prices are better in the opposite direction. */
  function Other(side: Side): Side { if side.BUY? then SELL else BUY }

  ghost function Best(side: Side, m: Levels): (b: Price)
    requires m != map[]
    ensures IsBest(side, m, b)
  {
    BestExists(side, m);
    var b: Price :| IsBest(side, m, b);
    b
  }

  lemma {:induction false} BestUnique(side: Side, m: Levels, a: Price, b: Price)
    requires IsBest(side, m, a) && IsBest(side, m, b)
    ensures a == b
  {
  }

  function AsLevel(p: Price, size: int): BookLevel {
    BookLevel(PriceToDecimal(p), QtyToDecimal(size))
  }

  /** All levels of one side, best first. */
  ghost function Ladder(side: Side, m: Levels): seq<BookLevel>
    decreases |m|
  {
    if m == map[] then []
    else
      var b := Best(side, m);
      assert (m - {b}).Keys == m.Keys - {b};
      [AsLevel(b, m[b])] + Ladder(side, m - {b})
  }

  ghost function Take<T>(s: seq<T>, n: nat): seq<T> {
    if n <= |s| then s[..n] else s
  }

  /** The sides a taker meets: a buyer the asks, a seller the bids. */
  ghost function LevelsFor(b: BookState, taker: Side): seq<BookLevel> {
    Take(Ladder(Other(taker), b.Levels(Other(taker))), b.maxDepth)
  }

  /** Sorted from the taker's point of view. */
  ghost predicate SortedFor(taker: Side, levels: seq<BookLevel>) {
    if taker.BUY? then Ascending(levels) else Descending(levels)
  }

  lemma {:induction false} LadderMembers(side: Side, m: Levels)
    ensures forall l | l in Ladder(side, m) :: exists p :: p in m && l == AsLevel(p, m[p])
    decreases |m|
  {
    if m != map[] {
      var b := Best(side, m);
      assert (m - {b}).Keys == m.Keys - {b};
      LadderMembers(side, m - {b});
      forall l | l in Ladder(side, m) ensures exists p :: p in m && l == AsLevel(p, m[p]) {
        if l != AsLevel(b, m[b]) {
          assert l in Ladder(side, m - {b});
          var p :| p in m - {b} && l == AsLevel(p, (m - {b})[p]);
          assert p in m;
        }
      }
    }
  }

  lemma {:induction false} LadderSorted(side: Side, m: Levels)
    ensures SortedFor(Other(side), Ladder(side, m))
    decreases |m|
  {
    if m != map[] {
      var b := Best(side, m);
      var rest := m - {b};
      assert rest.Keys == m.Keys - {b};
      LadderSorted(side, rest);
      LadderMembers(side, rest);
      var ladder := Ladder(side, m);
      forall j | 0 < j < |ladder|
        ensures if side.SELL? then ladder[0].price <= ladder[j].price else ladder[0].price >= ladder[j].price
      {
        assert ladder[j] == Ladder(side, rest)[j - 1];
        assert ladder[j] in Ladder(side, rest);
        var p :| p in rest && ladder[j] == AsLevel(p, rest[p]);
        assert Better(side, b, p);
      }
      assert ladder[1..] == Ladder(side, rest);
      forall i, j | 0 <= i < j < |ladder|
        ensures if side.SELL? then ladder[i].price <= ladder[j].price else ladder[i].price >= ladder[j].price
      {
        if i > 0 { assert ladder[i] == ladder[1..][i - 1] && ladder[j] == ladder[1..][j - 1]; }
      }
    }
  }

  ghost predicate PositivePrices(levels: seq<BookLevel>) {
    forall l | l in levels :: l.price > 0.0
  }

  /** What a taker walks: sorted from its point of view, positive, and starting at the best level. */
  lemma {:induction false} LevelsForFacts(b: BookState, taker: Side)
    requires PositiveBook(b.Levels(Other(taker)))
    ensures var levels := LevelsFor(b, taker);
            && SortedFor(taker, levels) && PositiveSizes(levels) && PositivePrices(levels)
            && (levels != [] ==> b.Levels(Other(taker)) != map[]
                                 && levels[0].price == PriceToDecimal(Best(Other(taker), b.Levels(Other(taker)))))
  {
    var side := Other(taker);
    var m := b.Levels(side);
    LadderSorted(side, m);
    LadderMembers(side, m);
    var ladder, levels := Ladder(side, m), LevelsFor(b, taker);
    assert Other(side) == taker;
    forall l | l in levels ensures l.price > 0.0 && l.size > 0.0 {
      assert l in ladder;
      var p :| p in m && l == AsLevel(p, m[p]);
    }
  }

  /** The prices of a side, best first. */
  ghost predicate BestFirst(side: Side, m: Levels, prices: seq<Price>) {
    |prices| == |m| && Ranked(side, m, prices) && InOrder(side, prices) && forall p | p in m :: p in prices
  }

  /** Every price stands as far back as there are better ones. */
  ghost predicate Ranked(side: Side, m: Levels, prices: seq<Price>) {
    forall i | 0 <= i < |prices| :: prices[i] in m && |Betters(side, m, prices[i])| == i
  }

  ghost predicate InOrder(side: Side, prices: seq<Price>) {
    forall i, j | 0 <= i < j < |prices| :: Better(side, prices[i], prices[j])
  }

  lemma {:induction false} BettersWithBest(side: Side, m: Levels, b: Price, p: Price)
    requires IsBest(side, m, b) && p in m && p != b
    ensures |Betters(side, m, p)| == |Betters(side, m - {b}, p)| + 1
  {
    assert Betters(side, m, p) == Betters(side, m - {b}, p) + {b};
    assert b !in Betters(side, m - {b}, p);
  }

  lemma {:induction false} RankedCons(side: Side, m: Levels, b: Price, tail: seq<Price>)
    requires IsBest(side, m, b) && Ranked(side, m - {b}, tail)
    ensures Ranked(side, m, [b] + tail)
  {
    var prices := [b] + tail;
    assert Betters(side, m, b) == {};
    forall i | 0 <= i < |prices| ensures prices[i] in m && |Betters(side, m, prices[i])| == i {
      if i > 0 {
        assert prices[i] == tail[i - 1];
        BettersWithBest(side, m, b, tail[i - 1]);
      }
    }
  }

  lemma {:induction false} InOrderCons(side: Side, m: Levels, b: Price, tail: seq<Price>)
    requires IsBest(side, m, b) && Ranked(side, m - {b}, tail) && InOrder(side, tail)
    ensures InOrder(side, [b] + tail)
  {
    hide Betters;
    var prices := [b] + tail;
    forall i, j | 0 <= i < j < |prices| ensures Better(side, prices[i], prices[j]) {
      assert prices[j] == tail[j - 1] && tail[j - 1] in m - {b};
      if i > 0 { assert prices[i] == tail[i - 1]; }
    }
  }

  lemma {:induction false} BestFirstCons(side: Side, m: Levels, b: Price, tail: seq<Price>)
    requires IsBest(side, m, b) && BestFirst(side, m - {b}, tail)
    ensures BestFirst(side, m, [b] + tail)
  {
    RankedCons(side, m, b, tail);
    InOrderCons(side, m, b, tail);
    hide Ranked, InOrder, IsBest;
    assert (m - {b}).Keys == m.Keys - {b};
    forall p | p in m ensures p in [b] + tail {
      if p != b { assert p in m - {b}; }
    }
  }

  /** The levels that stand at some prices. */
  ghost predicate StandAt(levels: seq<BookLevel>, m: Levels, prices: seq<Price>) {
    && |levels| == |prices|
    && forall i | 0 <= i < |prices| :: prices[i] in m && levels[i] == AsLevel(prices[i], m[prices[i]])
  }

  lemma {:induction false} StandAtCons(levels: seq<BookLevel>, m: Levels, b: Price, tail: seq<Price>)
    requires b in m && StandAt(levels, m - {b}, tail)
    ensures StandAt([AsLevel(b, m[b])] + levels, m, [b] + tail)
  {
    hide AsLevel;
    var prices := [b] + tail;
    forall i | 0 <= i < |prices|
      ensures prices[i] in m && ([AsLevel(b, m[b])] + levels)[i] == AsLevel(prices[i], m[prices[i]])
    {
      if i > 0 { assert prices[i] == tail[i - 1] && tail[i - 1] in m - {b}; }
    }
  }

  /** The levels of one side are its prices, best first, each with its own size. */
  lemma {:induction false} LadderPrices(side: Side, m: Levels) returns (prices: seq<Price>)
    ensures BestFirst(side, m, prices) && StandAt(Ladder(side, m), m, prices)
    decreases |m|
  {
    hide Best, Betters, AsLevel;
    if m == map[] {
      prices := [];
    } else {
      var b := Best(side, m);
      assert (m - {b}).Keys == m.Keys - {b};
      var tail := LadderPrices(side, m - {b});
      hide BestFirst, StandAt;
      prices := [b] + tail;
      BestFirstCons(side, m, b, tail);
      StandAtCons(Ladder(side, m - {b}), m, b, tail);
    }
  }

  /** Main result: a taker reads the best `maxDepth` levels of the other side, or all there are: one
      for one and best first the prices of its top, in units of 0.0001, each with the size that stands
      at that price. */
  lemma {:induction false} LevelsRead(b: BookState, taker: Side) returns (prices: seq<Price>)
    ensures var m := if taker.BUY? then b.asks else b.bids;
            var levels := LevelsFor(b, taker);
            && |levels| == |prices| == (if |m| <= b.maxDepth then |m| else b.maxDepth)
            && (forall i | 0 <= i < |prices| :: prices[i] in m
                  && levels[i].price == prices[i] as real / 10000.0
                  && levels[i].size == m[prices[i]] as real / 10000.0)
            && (forall i, j | 0 <= i < j < |prices| ::
                  if taker.BUY? then prices[i] < prices[j] else prices[i] > prices[j])
            && (forall p :: p in prices <==> p in Top(if taker.BUY? then SELL else BUY, m, b.maxDepth))
  {
    hide Ladder;
    var side := Other(taker);
    var m := b.Levels(side);
    var all := LadderPrices(side, m);
    prices := Take(all, b.maxDepth);
    forall p ensures p in prices <==> p in Top(side, m, b.maxDepth) {
      if p in m {
        var i :| 0 <= i < |all| && all[i] == p;
        assert |Betters(side, m, p)| == i;
        if i < |prices| { assert prices[i] == p; }
      }
    }
  }

  /** What a taker walks starts at the best level, whatever the sizes. */
  lemma {:induction false} LevelsHead(b: BookState, taker: Side)
    ensures var levels, m := LevelsFor(b, taker), b.Levels(Other(taker));
            levels != [] ==> m != map[] && levels[0].price == PriceToDecimal(Best(Other(taker), m))
  {
    hide Best;
  }

  // ---------------------------------------------------------------- market impact

  datatype MarketImpact = MarketImpact(averagePrice: real, impactPct: real, totalCost: real, sizeFilled: real)

  /** The impact of taking `size`, in terms of the walk; None when there is not enough. */
  function ImpactOf(levels: seq<BookLevel>, taker: Side, size: real): Option<MarketImpact>
    requires levels != [] ==> size != 0.0
    requires levels != [] && size - Sum(Fills(levels, size)) <= 0.0 ==> levels[0].price != 0.0
  {
    if levels == [] || size - Sum(Fills(levels, size)) > 0.0 then None
    else
      var average := WalkCost(levels, size) / size;
      var best := levels[0].price;
      Some(MarketImpact(average,
                        if taker.BUY? then (average - best) / best else (best - average) / best,
                        WalkCost(levels, size), size))
  }

  predicate BeatsAll(side: Side, m: Levels, b: Price) {
    forall q | q in m :: q == b || Better(side, b, q)
  }

  lemma {:induction false} BestBeatsAll(side: Side, m: Levels)
    requires m != map[]
    ensures Best(side, m) in m && BeatsAll(side, m, Best(side, m))
    ensures forall b: Price :: b in m && BeatsAll(side, m, b) ==> b == Best(side, m)
  {
    hide Best;
    forall b: Price | b in m && BeatsAll(side, m, b) ensures b == Best(side, m) {
      BestUnique(side, m, b, Best(side, m));
    }
  }

  /** The first level of a side. */
  method FirstLevel(side: Side, m: Levels) returns (b: Price)
    requires m != map[]
    ensures b == Best(side, m)
  {
    hide Best, BeatsAll;
    BestBeatsAll(side, m);
    assert exists b: Price :: b in m && BeatsAll(side, m, b) by {
      assert BeatsAll(side, m, Best(side, m));
    }
    b :| b in m && BeatsAll(side, m, b);
  }

  /** Reads the levels a taker meets off a book. */
  method BookLevels(book: OrderBook, taker: Side) returns (levels: seq<BookLevel>)
    ensures levels == LevelsFor(book.State(), taker)
  {
    var side := Other(taker);
    hide Best;
    var rest := if side.BUY? then book.bids else book.asks;
    ghost var goal := Ladder(side, rest);
    levels := [];
    while rest != map[] && |levels| < book.maxDepth
      invariant levels + Ladder(side, rest) == goal && |levels| <= book.maxDepth
      decreases |rest|
    {
      var b := FirstLevel(side, rest);
      assert (rest - {b}).Keys == rest.Keys - {b};
      levels := levels + [AsLevel(b, rest[b])];
      rest := rest - {b};
    }
  }

  method BestPrice(book: OrderBook, taker: Side) returns (r: Option<real>)
    ensures var m := book.State().Levels(Other(taker));
            r == if m == map[] then None else Some(PriceToDecimal(Best(Other(taker), m)))
  {
    var side := Other(taker);
    var m := if side.BUY? then book.bids else book.asks;
    if m == map[] {
      return None;
    }
    var b := FirstLevel(side, m);
    r := Some(PriceToDecimal(b));
  }

  /** The loop of the impact calculation. */
  method WalkForImpact(levels: seq<BookLevel>, size: real)
    returns (remaining: real, totalCost: real, weightedPrice: real)
    requires size != 0.0
    ensures remaining == size - Sum(Fills(levels, size))
    ensures totalCost == weightedPrice == WalkCost(levels, size)
  {
    hide Notional;
    remaining, totalCost, weightedPrice := size, 0.0, 0.0;
    var i := 0;
    assert levels[0..] == levels;
    while i < |levels|
      invariant 0 <= i <= |levels| && remaining != 0.0
      invariant remaining - Sum(Fills(levels[i..], remaining)) == size - Sum(Fills(levels, size))
      invariant totalCost + WalkCost(levels[i..], remaining) == WalkCost(levels, size)
      invariant weightedPrice == totalCost
    {
      WalkStep(levels[i..], remaining);
      assert levels[i..][1..] == levels[i + 1..];
      var fillSize := Min(remaining, levels[i].size);
      var levelCost := Notional(fillSize, levels[i].price);
      totalCost := totalCost + levelCost;
      weightedPrice := weightedPrice + levelCost;
      remaining := remaining - fillSize;
      i := i + 1;
      if remaining == 0.0 {
        break;
      }
    }
    assert Fills(levels[i..], remaining) == [];
  }

  /** The source divides by the size and, when there is enough, by the best price. */
  method CalculateMarketImpact(book: OrderBook, taker: Side, size: real) returns (r: Option<MarketImpact>)
    requires LevelsFor(book.State(), taker) != [] ==> size != 0.0
    requires var levels := LevelsFor(book.State(), taker);
             levels != [] && size - Sum(Fills(levels, size)) <= 0.0 ==> levels[0].price != 0.0
    ensures r == ImpactOf(LevelsFor(book.State(), taker), taker, size)
  {
    hide Notional, WalkCost, Fills, Ladder;
    var levels := BookLevels(book, taker);
    LevelsHead(book.State(), taker);
    if levels == [] {
      return None;
    }
    var remaining, totalCost, weightedPrice := WalkForImpact(levels, size);
    if remaining > 0.0 {
      return None;
    }
    var average := weightedPrice / size;
    var best := BestPrice(book, taker);
    if best.None? {
      return None;
    }
    var impact := if taker.BUY? then (average - best.value) / best.value else (best.value - average) / best.value;
    r := Some(MarketImpact(average, impact, totalCost, size));
  }

  // ---------------------------------------------------------------- the fill engine

  datatype MarketOrder = MarketOrder(clientId: Option<string>, token: string, taker: Side, amount: real)

  datatype Fill = Fill(orderId: string, token: string, taker: Side, price: real, size: real, fee: real)

  datatype FillStatus = Filled | Partial | Unfilled | Rejected

  datatype FillResult = FillResult(orderId: string, fills: seq<Fill>, totalSize: real, averagePrice: real,
                                   totalCost: real, fees: real, status: FillStatus)

  datatype OrderError = ZeroAmount | BelowMinimum

  datatype Result<+T, +E> = Ok(value: T) | Err(error: E)

  datatype EngineConfig = EngineConfig(minFillSize: real, maxSlippagePct: real, feeRateBps: nat)

  function OrderId(o: MarketOrder): string {
    if o.clientId.Some? then o.clientId.value else "market_order"
  }

  function Fee(notional: real, bps: nat): real { notional * bps as real / 10000.0 }

  /** The fills of the walk, level by level. */
  function FillsOf(o: MarketOrder, levels: seq<BookLevel>, amount: real, bps: nat): seq<Fill> {
    if levels == [] || amount == 0.0 then []
    else
      var size := Min(amount, levels[0].size);
      [Fill(OrderId(o), o.token, o.taker, levels[0].price, size, Fee(Notional(size, levels[0].price), bps))]
      + FillsOf(o, levels[1..], amount - size, bps)
  }

  /** The first fill of the walk and the rest. */
  lemma {:induction false} FillsOfStep(o: MarketOrder, levels: seq<BookLevel>, amount: real, bps: nat)
    requires levels != [] && amount != 0.0
    ensures var size := Min(amount, levels[0].size);
            FillsOf(o, levels, amount, bps) ==
              [Fill(OrderId(o), o.token, o.taker, levels[0].price, size, Fee(Notional(size, levels[0].price), bps))]
              + FillsOf(o, levels[1..], amount - size, bps)
  {
  }

  lemma {:induction false} FillsOfNothing(o: MarketOrder, levels: seq<BookLevel>, amount: real, bps: nat)
    requires levels == [] || amount == 0.0
    ensures FillsOf(o, levels, amount, bps) == []
  {
  }

  function SizeOf(fills: seq<Fill>): real {
    if fills == [] then 0.0 else fills[0].size + SizeOf(fills[1..])
  }

  function CostOf(fills: seq<Fill>): real {
    if fills == [] then 0.0 else Notional(fills[0].size, fills[0].price) + CostOf(fills[1..])
  }

  function FeesOf(fills: seq<Fill>): real {
    if fills == [] then 0.0 else fills[0].fee + FeesOf(fills[1..])
  }

  /** `math::calculate_slippage`. */
  function SlippageBetween(target: real, executed: real, taker: Side): real
    requires target != 0.0
  {
    if taker.BUY? then if executed > target then (executed - target) / target else 0.0
    else if executed < target then (target - executed) / target else 0.0
  }

  function Slippage(taker: Side, fills: seq<Fill>): Option<real>
    requires fills != [] ==> SizeOf(fills) != 0.0 && fills[0].price != 0.0
  {
    if fills == [] then None
    else Some(SlippageBetween(fills[0].price, CostOf(fills) / SizeOf(fills), taker))
  }

  /** The fills are those of the walk. */
  lemma {:induction false} FillsMatchWalk(o: MarketOrder, levels: seq<BookLevel>, amount: real, bps: nat)
    ensures var fills := FillsOf(o, levels, amount, bps);
            && SizeOf(fills) == Sum(Fills(levels, amount))
            && CostOf(fills) == WalkCost(levels, amount)
            && FeesOf(fills) == Fee(WalkCost(levels, amount), bps)
    decreases |levels|
  {
    hide Notional, Fee;
    if levels != [] && amount != 0.0 {
      WalkStep(levels, amount);
      var size := Min(amount, levels[0].size);
      FillsMatchWalk(o, levels[1..], amount - size, bps);
      FeeAdds(Notional(size, levels[0].price), WalkCost(levels[1..], amount - size), bps);
      var rest := FillsOf(o, levels[1..], amount - size, bps);
      var first := Fill(OrderId(o), o.token, o.taker, levels[0].price, size, Fee(Notional(size, levels[0].price), bps));
      SumsOfCons(first, rest);
    } else {
      FeeAdds(0.0, 0.0, bps);
    }
  }

  lemma {:induction false} SumsOfCons(first: Fill, rest: seq<Fill>)
    ensures SizeOf([first] + rest) == first.size + SizeOf(rest)
    ensures CostOf([first] + rest) == Notional(first.size, first.price) + CostOf(rest)
    ensures FeesOf([first] + rest) == first.fee + FeesOf(rest)
  {
    hide Notional;
    assert ([first] + rest)[1..] == rest;
  }

  lemma {:induction false} FeeAdds(a: real, b: real, bps: nat)
    ensures Fee(a, bps) + Fee(b, bps) == Fee(a + b, bps) && Fee(0.0, bps) == 0.0
  {
  }

  /** A walk for a nonzero amount over positive sizes fills something. */
  lemma {:induction false} FillsNonzero(levels: seq<BookLevel>, amount: real)
    requires PositiveSizes(levels) && amount != 0.0
    ensures levels != [] ==> Sum(Fills(levels, amount)) != 0.0
  {
    if levels != [] {
      assert levels[0] in levels;
      WalkStep(levels, amount);
      if amount > 0.0 {
        FilledAmount(levels, amount);
        TotalPositive(levels);
      } else {
        assert Fills(levels[1..], 0.0) == [];
      }
    }
  }

  /** An accepted order does not make the source divide by zero: by the filled amount or by the best
      price. */
  ghost predicate Divisible(c: EngineConfig, o: MarketOrder, levels: seq<BookLevel>) {
    levels != [] && o.amount != 0.0 && o.amount >= c.minFillSize ==>
      Sum(Fills(levels, o.amount)) != 0.0 && levels[0].price != 0.0
  }

  /** Levels of positive size and price never do. */
  lemma {:induction false} PositiveIsDivisible(c: EngineConfig, o: MarketOrder, levels: seq<BookLevel>)
    requires PositiveLevels(levels)
    ensures Divisible(c, o, levels)
  {
    if levels != [] && o.amount != 0.0 {
      FillsNonzero(levels, o.amount);
      assert levels[0] in levels;
    }
  }

  /** What executing a market order against some levels returns. */
  function Execute(c: EngineConfig, o: MarketOrder, levels: seq<BookLevel>): Result<FillResult, OrderError>
    requires Divisible(c, o, levels)
  {
    if o.amount == 0.0 then Err(ZeroAmount)
    else if o.amount < c.minFillSize then Err(BelowMinimum)
    else
      var fills := FillsOf(o, levels, o.amount, c.feeRateBps);
      FillsMatchWalk(o, levels, o.amount, c.feeRateBps);
      if levels == [] then Ok(FillResult(OrderId(o), [], 0.0, 0.0, 0.0, 0.0, Unfilled))
      else if Slippage(o.taker, fills).value > c.maxSlippagePct then
        Ok(FillResult(OrderId(o), [], 0.0, 0.0, 0.0, 0.0, Rejected))
      else
        Ok(FillResult(OrderId(o), fills, SizeOf(fills), CostOf(fills) / SizeOf(fills), CostOf(fills), FeesOf(fills),
                      if o.amount == SizeOf(fills) then Filled
                      else if SizeOf(fills) >= c.minFillSize then Partial
                      else Unfilled))
  }

  ghost predicate PositiveLevels(levels: seq<BookLevel>) {
    PositiveSizes(levels) && PositivePrices(levels)
  }

  class FillEngine {
    const config: EngineConfig
    /** The fills of every order that had any, by order id. */
    var fills: map<string, seq<Fill>>

    constructor (config: EngineConfig)
      ensures this.config == config && fills == map[]
    {
      this.config := config;
      fills := map[];
    }

    method ValidateMarketOrder(o: MarketOrder) returns (error: Option<OrderError>)
      ensures error == if o.amount == 0.0 then Some(ZeroAmount)
                       else if o.amount < config.minFillSize then Some(BelowMinimum) else None
    {
      if o.amount == 0.0 {
        return Some(ZeroAmount);
      }
      if o.amount < config.minFillSize {
        return Some(BelowMinimum);
      }
      error := None;
    }

    method ExecuteMarketOrder(o: MarketOrder, book: OrderBook) returns (r: Result<FillResult, OrderError>)
      requires Divisible(config, o, LevelsFor(book.State(), o.taker))
      modifies this
      ensures r == Execute(config, o, LevelsFor(book.State(), o.taker))
      ensures fills == if r.Ok? && r.value.fills != [] then old(fills)[OrderId(o) := r.value.fills] else old(fills)
    {
      hide Notional;
      var error := ValidateMarketOrder(o);
      if error.Some? {
        return Err(error.value);
      }
      var levels := BookLevels(book, o.taker);
      if levels == [] {
        return Ok(FillResult(OrderId(o), [], 0.0, 0.0, 0.0, 0.0, Unfilled));
      }
      FillsMatchWalk(o, levels, o.amount, config.feeRateBps);
      var filled, remaining, totalCost, totalSize := WalkLevels(o, levels);
      var slippage := Slippage(o.taker, filled);
      if slippage.Some? && slippage.value > config.maxSlippagePct {
        return Ok(FillResult(OrderId(o), [], 0.0, 0.0, 0.0, 0.0, Rejected));
      }
      var status := if remaining == 0.0 then Filled
                    else if totalSize >= config.minFillSize then Partial
                    else Unfilled;
      var average := if totalSize == 0.0 then 0.0 else totalCost / totalSize;
      r := Ok(FillResult(OrderId(o), filled, totalSize, average, totalCost, FeesOf(filled), status));
      if filled != [] {
        fills := fills[OrderId(o) := filled];
      }
    }

    /** The loop that fills an order level by level. */
    method WalkLevels(o: MarketOrder, levels: seq<BookLevel>)
      returns (filled: seq<Fill>, remaining: real, totalCost: real, totalSize: real)
      ensures filled == FillsOf(o, levels, o.amount, config.feeRateBps)
      ensures totalCost == CostOf(filled) && totalSize == SizeOf(filled) && remaining == o.amount - totalSize
    {
      hide Notional, Fee, FillsOf;
      filled, remaining, totalCost, totalSize := [], o.amount, 0.0, 0.0;
      ghost var goal := FillsOf(o, levels, o.amount, config.feeRateBps);
      var i := 0;
      assert levels[0..] == levels;
      while i < |levels|
        invariant 0 <= i <= |levels|
        invariant filled + FillsOf(o, levels[i..], remaining, config.feeRateBps) == goal
        invariant totalCost == CostOf(filled) && totalSize == SizeOf(filled) && remaining == o.amount - totalSize
      {
        if remaining == 0.0 {
          break;
        }
        assert levels[i..][1..] == levels[i + 1..];
        FillsOfStep(o, levels[i..], remaining, config.feeRateBps);
        var fillSize := Min(remaining, levels[i].size);
        var fillCost := Notional(fillSize, levels[i].price);
        var fee := Fee(fillCost, config.feeRateBps);
        var fill := Fill(OrderId(o), o.token, o.taker, levels[i].price, fillSize, fee);
        SumsOfSnoc(filled, fill);
        Associate(filled, [fill], FillsOf(o, levels[i + 1..], remaining - fillSize, config.feeRateBps));
        filled := filled + [fill];
        totalCost := totalCost + fillCost;
        totalSize := totalSize + fillSize;
        remaining := remaining - fillSize;
        i := i + 1;
      }
      FillsOfNothing(o, levels[i..], remaining, config.feeRateBps);
    }
  }

  lemma {:induction false} SumsOfSnoc(fills: seq<Fill>, last: Fill)
    ensures SizeOf(fills + [last]) == SizeOf(fills) + last.size
    ensures CostOf(fills + [last]) == CostOf(fills) + Notional(last.size, last.price)
  {
    hide Notional;
    if fills == [] {
      assert [last][1..] == [] && [] + [last] == [last];
    } else {
      assert (fills + [last])[1..] == fills[1..] + [last];
      SumsOfSnoc(fills[1..], last);
    }
  }

  // ---------------------------------------------------------------- agreement

  lemma {:induction false} DivideSmaller(a: real, b: real, p: real)
    requires b > 0.0 && a >= Notional(b, p)
    ensures a / b >= p
  {
    var u := a / b;
    assert a == b * u;
    if u < p {
      assert b * (p - u) > 0.0;
    }
  }

  lemma {:induction false} DivideSame(b: real, p: real)
    requires b != 0.0
    ensures Notional(b, p) / b == p
  {
  }

  /** The average price of the walk is no better than the best price. */
  lemma {:induction false} AverageNotBetter(levels: seq<BookLevel>, taker: Side, amount: real)
    requires PositiveSizes(levels) && SortedFor(taker, levels) && levels != []
    requires amount != 0.0 && Sum(Fills(levels, amount)) == amount
    ensures var average := WalkCost(levels, amount) / amount;
            if taker.BUY? then average >= levels[0].price else average <= levels[0].price
  {
    hide Notional;
    var p := levels[0].price;
    assert levels[0] in levels;
    if amount < 0.0 {
      WalkStep(levels, amount);
      assert WalkCost(levels[1..], 0.0) == 0.0;
      DivideSame(amount, p);
    } else {
      FilledAmount(levels, amount);
      if taker.BUY? {
        FirstLevelCheapest(levels, amount);
        DivideSmaller(WalkCost(levels, amount), amount, p);
      } else {
        MirrorFacts(levels, amount);
        FirstLevelCheapest(Mirror(levels), amount);
        DivideSmaller(-WalkCost(levels, amount), amount, -p);
        NegatedQuotient(WalkCost(levels, amount), amount);
      }
    }
  }

  lemma {:induction false} NegatedQuotient(a: real, b: real)
    requires b != 0.0
    ensures -a / b == -(a / b)
  {
  }

  /** Main result: market impact exists exactly when the engine's walk leaves nothing, and then the
      walks agree on the cost, and the engine's slippage is the impact. */
  lemma {:induction false} ImpactAgreesWithFills(o: MarketOrder, levels: seq<BookLevel>, bps: nat)
    requires PositiveLevels(levels) && SortedFor(o.taker, levels) && o.amount != 0.0
    ensures levels != [] ==> levels[0].price != 0.0
    ensures var fills := FillsOf(o, levels, o.amount, bps);
            var impact := ImpactOf(levels, o.taker, o.amount);
            && (impact.Some? <==> SizeOf(fills) == o.amount)
            && (impact.Some? ==>
                  && fills != [] && fills[0].price != 0.0
                  && impact.value.totalCost == CostOf(fills)
                  && Slippage(o.taker, fills) == Some(impact.value.impactPct))
  {
    hide Notional, Fee;
    assert levels != [] ==> levels[0] in levels;
    FillsMatchWalk(o, levels, o.amount, bps);
    FillsNonzero(levels, o.amount);
    FilledAtMost(levels, o.amount);
    if ImpactOf(levels, o.taker, o.amount).Some? {
      AverageNotBetter(levels, o.taker, o.amount);
    }
  }

  lemma {:induction false} FilledAtMost(levels: seq<BookLevel>, amount: real)
    requires PositiveSizes(levels) && amount != 0.0
    ensures amount - Sum(Fills(levels, amount)) >= 0.0 || levels == []
    ensures levels == [] ==> Sum(Fills(levels, amount)) == 0.0
  {
    if levels != [] {
      assert levels[0] in levels;
      if amount > 0.0 {
        FilledAmount(levels, amount);
      } else {
        WalkStep(levels, amount);
        assert Fills(levels[1..], 0.0) == [];
      }
    }
  }

  /** What becomes of an order that can be filled completely: it is rejected exactly when its impact
      is above the limit and filled otherwise, at the cost of the walk and with the fee on it. */
  lemma {:induction false} FillableOrder(c: EngineConfig, o: MarketOrder, levels: seq<BookLevel>)
    requires PositiveLevels(levels) && SortedFor(o.taker, levels)
    requires o.amount != 0.0 && o.amount >= c.minFillSize
    requires (levels != [] ==> levels[0].price != 0.0) && ImpactOf(levels, o.taker, o.amount).Some?
    ensures var impact := ImpactOf(levels, o.taker, o.amount).value;
            && Divisible(c, o, levels)
            && var r := Execute(c, o, levels);
            && r.Ok?
            && (r.value.status == Rejected <==> impact.impactPct > c.maxSlippagePct)
            && (r.value.status == Rejected ==> r.value.fills == [])
            && (r.value.status != Rejected ==>
                  && r.value.status == Filled
                  && SizeOf(r.value.fills) == r.value.totalSize == o.amount
                  && r.value.totalCost == impact.totalCost && r.value.averagePrice == impact.averagePrice
                  && r.value.fees == Fee(impact.totalCost, c.feeRateBps))
  {
    hide Notional, Fee;
    PositiveIsDivisible(c, o, levels);
    ImpactAgreesWithFills(o, levels, c.feeRateBps);
    FillsMatchWalk(o, levels, o.amount, c.feeRateBps);
  }

  lemma {:induction false} CrossDivide(x: real, a: real, y: real, b: real)
    requires a > 0.0 && b > 0.0 && Notional(b, x) <= Notional(a, y)
    ensures x / a <= y / b
  {
    var (u, v) := (x / a, y / b);
    assert x == u * a && y == v * b;
    assert b * x == (a * b) * u && a * y == (a * b) * v;
    assert a * b > 0.0;
    CancelFactor(a * b, u, v);
  }

  lemma {:induction false} CancelFactor(k: real, u: real, v: real)
    requires k > 0.0 && k * u <= k * v
    ensures u <= v
  {
    assert k * (v - u) >= 0.0;
  }

  /** Market impact grows with size: a larger order has no better an average price, and its impact is
      no smaller; the impact is never negative. */
  lemma {:induction false} ImpactGrows(levels: seq<BookLevel>, taker: Side, a: real, b: real)
    requires PositiveLevels(levels) && SortedFor(taker, levels) && levels != [] && levels[0].price != 0.0
    requires 0.0 < a <= b <= Total(levels)
    ensures var (ia, ib) := (ImpactOf(levels, taker, a), ImpactOf(levels, taker, b));
            && ia.Some? && ib.Some?
            && (if taker.BUY? then ia.value.averagePrice <= ib.value.averagePrice
                else ia.value.averagePrice >= ib.value.averagePrice)
            && 0.0 <= ia.value.impactPct <= ib.value.impactPct
  {
    hide Notional;
    assert levels[0] in levels;
    FilledAmount(levels, a);
    FilledAmount(levels, b);
    AverageNotBetter(levels, taker, a);
    if taker.BUY? {
      AverageCostRises(levels, a, b);
      CrossDivide(WalkCost(levels, a), a, WalkCost(levels, b), b);
    } else {
      MirrorFacts(levels, a);
      MirrorFacts(levels, b);
      AverageCostRises(Mirror(levels), a, b);
      CrossDivide(-WalkCost(levels, a), a, -WalkCost(levels, b), b);
      NegatedQuotient(WalkCost(levels, a), a);
      NegatedQuotient(WalkCost(levels, b), b);
    }
    var best := levels[0].price;
    var (x, y) := (WalkCost(levels, a) / a, WalkCost(levels, b) / b);
    if taker.BUY? { QuotientMonotone(x - best, y - best, best); } else { QuotientMonotone(best - x, best - y, best); }
  }

  lemma {:induction false} QuotientMonotone(x: real, y: real, d: real)
    requires 0.0 <= x <= y && d > 0.0
    ensures 0.0 <= x / d <= y / d
  {
  }

  // ---------------------------------------------------------------- what the results mean

  /** An impact says what it should: there is one exactly if the side holds enough, it is for the whole
      size, its average price times the size is the cost of the walk, and its percentage of the best
      price is how far the average is from it. */
  lemma {:induction false} ImpactMeaning(levels: seq<BookLevel>, taker: Side, size: real)
    requires PositiveLevels(levels) && size > 0.0
    ensures levels != [] ==> levels[0].price > 0.0
    ensures var impact := ImpactOf(levels, taker, size);
            && (impact.Some? <==> size <= Total(levels))
            && (impact.Some? ==>
                  && impact.value.sizeFilled == size && impact.value.totalCost == WalkCost(levels, size)
                  && impact.value.averagePrice * size == impact.value.totalCost
                  && impact.value.impactPct * levels[0].price ==
                     if taker.BUY? then impact.value.averagePrice - levels[0].price
                     else levels[0].price - impact.value.averagePrice)
  {
    hide Notional, WalkCost;
    FilledAmount(levels, size);
    if levels != [] {
      assert levels[0] in levels;
      var (cost, best) := (WalkCost(levels, size), levels[0].price);
      QuotientTimes(cost, size);
      QuotientTimes(cost / size - best, best);
      QuotientTimes(best - cost / size, best);
    }
  }

  lemma {:induction false} QuotientTimes(x: real, d: real)
    requires d != 0.0
    ensures x / d * d == x
  {
  }

  /** A fill of `size` at a level, with the order's own id, token and side, and the fee on its cost. */
  predicate OwnFill(o: MarketOrder, fill: Fill, level: BookLevel, size: real, bps: nat) {
    && fill.orderId == (if o.clientId.Some? then o.clientId.value else "market_order")
    && fill.token == o.token && fill.taker == o.taker
    && fill.price == level.price && fill.size == size
    && fill.fee == size * level.price * bps as real / 10000.0
  }

  lemma {:induction false} FillMade(o: MarketOrder, level: BookLevel, size: real, bps: nat)
    ensures OwnFill(o, Fill(OrderId(o), o.token, o.taker, level.price, size, Fee(Notional(size, level.price), bps)),
                    level, size, bps)
  {
  }

  /** The fills are the order's own, one for each level walked. */
  lemma {:induction false} FillsOneByOne(o: MarketOrder, levels: seq<BookLevel>, amount: real, bps: nat)
    ensures var (fills, sizes) := (FillsOf(o, levels, amount, bps), Fills(levels, amount));
            && |fills| == |sizes| <= |levels|
            && forall k | 0 <= k < |fills| :: OwnFill(o, fills[k], levels[k], sizes[k], bps)
    decreases |levels|
  {
    hide OwnFill, Fee, Notional;
    if levels != [] && amount != 0.0 {
      var size := Min(amount, levels[0].size);
      FillMade(o, levels[0], size, bps);
      FillsOneByOne(o, levels[1..], amount - size, bps);
    }
  }

  /** How far the average price is on the wrong side of the best price, as a part of it. */
  function WorseBy(taker: Side, best: real, average: real): real
    requires best > 0.0
  {
    var distance := if taker.BUY? then average - best else best - average;
    if distance > 0.0 then distance / best else 0.0
  }

  /** Main result: what becomes of any market order over levels of positive size and price. An empty
      side leaves it unfilled; else the lesser of the amount and the depth is filled at the cost of the
      walk, unless the average price is too much worse than the best one, and then nothing is. */
  lemma {:induction false} OrderOutcome(c: EngineConfig, o: MarketOrder, levels: seq<BookLevel>)
    requires PositiveLevels(levels)
    ensures Divisible(c, o, levels)
    ensures o.amount == 0.0 ==> Execute(c, o, levels) == Err(ZeroAmount)
    ensures o.amount != 0.0 && o.amount < c.minFillSize ==> Execute(c, o, levels) == Err(BelowMinimum)
    ensures o.amount > 0.0 && o.amount >= c.minFillSize ==>
              var r := Execute(c, o, levels);
              r.Ok? &&
              if levels == [] then r.value.status == Unfilled && r.value.fills == [] && r.value.totalSize == 0.0
              else
                var filled := Min(o.amount, Total(levels));
                && filled > 0.0 && levels[0].price > 0.0
                && var average := WalkCost(levels, o.amount) / filled;
                if WorseBy(o.taker, levels[0].price, average) > c.maxSlippagePct then
                  r.value.status == Rejected && r.value.fills == [] && r.value.totalSize == 0.0
                else
                  && r.value.status == (if o.amount <= Total(levels) then Filled
                                        else if filled >= c.minFillSize then Partial else Unfilled)
                  && r.value.totalSize == filled && r.value.averagePrice == average
                  && r.value.totalCost == WalkCost(levels, o.amount)
                  && r.value.fees == r.value.totalCost * c.feeRateBps as real / 10000.0
                  && r.value.fills == FillsOf(o, levels, o.amount, c.feeRateBps)
  {
    hide Notional, WalkCost;
    PositiveIsDivisible(c, o, levels);
    if o.amount > 0.0 && o.amount >= c.minFillSize && levels != [] {
      assert levels[0] in levels;
      TotalPositive(levels);
      FilledAmount(levels, o.amount);
      FillsMatchWalk(o, levels, o.amount, c.feeRateBps);
      var filled := Min(o.amount, Total(levels));
      SlippageIsWorseBy(o.taker, levels[0].price, WalkCost(levels, o.amount) / filled);
    }
  }

  lemma {:induction false} SlippageIsWorseBy(taker: Side, best: real, average: real)
    requires best > 0.0
    ensures SlippageBetween(best, average, taker) == WorseBy(taker, best, average)
  {
  }
}
