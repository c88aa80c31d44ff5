/** The greedy walk over sorted levels and what is true of its cost. Amounts, sizes and prices are
    exact reals. */
module Walk {

  datatype BookLevel = BookLevel(price: real, size: real)

  /** What `size` costs at `price`. */
  function Notional(size: real, price: real): real { size * price }

  function Min(a: real, b: real): real { if a <= b then a else b }

  /** What the walk takes from each level until nothing remains. */
  function Fills(levels: seq<BookLevel>, amount: real): seq<real> {
    if levels == [] || amount == 0.0 then []
    else
      var take := Min(amount, levels[0].size);
      [take] + Fills(levels[1..], amount - take)
  }

  function Sum(xs: seq<real>): real {
    if xs == [] then 0.0 else xs[0] + Sum(xs[1..])
  }

  /** The cost of taking `xs[i]` from level i. */
  function Cost(levels: seq<BookLevel>, xs: seq<real>): real
    requires |xs| <= |levels|
  {
    if xs == [] then 0.0 else Notional(xs[0], levels[0].price) + Cost(levels[1..], xs[1..])
  }

  function Total(levels: seq<BookLevel>): real {
    if levels == [] then 0.0 else levels[0].size + Total(levels[1..])
  }

  /** The cost of the walk. */
  function WalkCost(levels: seq<BookLevel>, amount: real): real {
    if levels == [] || amount == 0.0 then 0.0
    else
      var take := Min(amount, levels[0].size);
      Notional(take, levels[0].price) + WalkCost(levels[1..], amount - take)
  }

  lemma {:induction false} WalkCostIsCost(levels: seq<BookLevel>, amount: real)
    ensures |Fills(levels, amount)| <= |levels|
    ensures Cost(levels, Fills(levels, amount)) == WalkCost(levels, amount)
  {
    if levels != [] && amount != 0.0 {
      var take := Min(amount, levels[0].size);
      WalkCostIsCost(levels[1..], amount - take);
      assert Fills(levels, amount)[1..] == Fills(levels[1..], amount - take);
    }
  }

  ghost predicate PositiveSizes(levels: seq<BookLevel>) {
    forall l | l in levels :: l.size > 0.0
  }

  /** Cheapest first, as a buyer meets the asks. */
  ghost predicate Ascending(levels: seq<BookLevel>) {
    forall i, j | 0 <= i < j < |levels| :: levels[i].price <= levels[j].price
  }

  /** Dearest first, as a seller meets the bids. */
  ghost predicate Descending(levels: seq<BookLevel>) {
    forall i, j | 0 <= i < j < |levels| :: levels[i].price >= levels[j].price
  }

  lemma {:induction false} TailFacts(levels: seq<BookLevel>)
    requires levels != [] && PositiveSizes(levels)
    ensures levels[0].size > 0.0 && PositiveSizes(levels[1..])
    ensures Ascending(levels) ==> Ascending(levels[1..]) && AllAtLeast(levels[1..], levels[0].price)
  {
    assert levels[0] in levels;
    assert forall l | l in levels[1..] :: l in levels;
  }

  ghost predicate AllAtLeast(levels: seq<BookLevel>, p: real) {
    forall l | l in levels :: l.price >= p
  }

  /** One level of the walk. */
  lemma {:induction false} WalkStep(levels: seq<BookLevel>, amount: real)
    requires levels != [] && amount != 0.0
    ensures var take := Min(amount, levels[0].size);
            && Fills(levels, amount) == [take] + Fills(levels[1..], amount - take)
            && Sum(Fills(levels, amount)) == take + Sum(Fills(levels[1..], amount - take))
            && WalkCost(levels, amount) == Notional(take, levels[0].price) + WalkCost(levels[1..], amount - take)
  {
    var take := Min(amount, levels[0].size);
    assert ([take] + Fills(levels[1..], amount - take))[1..] == Fills(levels[1..], amount - take);
  }

  lemma {:induction false} TotalPositive(levels: seq<BookLevel>)
    requires PositiveSizes(levels)
    ensures Total(levels) >= 0.0
    ensures levels != [] ==> Total(levels) > 0.0
  {
    if levels != [] {
      TailFacts(levels);
      TotalPositive(levels[1..]);
    }
  }

  /** The walk fills the whole amount if there is enough, and everything there is otherwise. */
  lemma {:induction false} FilledAmount(levels: seq<BookLevel>, amount: real)
    requires PositiveSizes(levels) && amount >= 0.0
    ensures Sum(Fills(levels, amount)) == Min(amount, Total(levels))
  {
    if levels == [] {
    } else if amount == 0.0 {
      TotalPositive(levels);
    } else {
      TailFacts(levels);
      var take := Min(amount, levels[0].size);
      FilledAmount(levels[1..], amount - take);
      TotalPositive(levels[1..]);
      assert Fills(levels, amount)[1..] == Fills(levels[1..], amount - take);
    }
  }

  /** Asking for more than there is changes nothing. */
  lemma {:induction false} FillsCapped(levels: seq<BookLevel>, amount: real)
    requires PositiveSizes(levels) && amount >= Total(levels)
    ensures Fills(levels, amount) == Fills(levels, Total(levels))
  {
    if levels != [] {
      TailFacts(levels);
      TotalPositive(levels[1..]);
      FillsCapped(levels[1..], amount - levels[0].size);
    }
  }

  lemma {:induction false} MulMonotone(a: real, x: real, y: real)
    requires a >= 0.0 && x <= y
    ensures a * x <= a * y
  {
    assert a * (y - x) >= 0.0;
  }

  lemma {:induction false} NotionalAdds(a: real, b: real, p: real)
    ensures Notional(a, p) + Notional(b, p) == Notional(a + b, p)
    ensures Notional(0.0, p) == 0.0
  {
  }

  lemma {:induction false} NotionalMonotone(a: real, p: real, q: real)
    requires a >= 0.0 && p <= q
    ensures Notional(a, p) <= Notional(a, q)
  {
    MulMonotone(a, p, q);
  }

  /** Every further unit costs at least the best price. */
  lemma {:induction false} MarginalCost(levels: seq<BookLevel>, b: real, d: real, p: real)
    requires PositiveSizes(levels) && AllAtLeast(levels, p)
    requires b >= 0.0 && d >= 0.0 && b + d <= Total(levels)
    ensures WalkCost(levels, b + d) - WalkCost(levels, b) >= Notional(d, p)
  {
    hide Notional;
    NotionalAdds(0.0, 0.0, p);
    if levels == [] {
      assert d == 0.0;
    } else if d != 0.0 {
      TailFacts(levels);
      assert levels[0] in levels && AllAtLeast(levels[1..], p);
      var (q, s, rest) := (levels[0].price, levels[0].size, levels[1..]);
      TotalPositive(rest);
      NotionalAdds(0.0, 0.0, q);
      if b >= s {
        MarginalCost(rest, b - s, d, p);
        assert b - s + d == b + d - s;
      } else if b + d <= s {
        NotionalMonotone(d, p, q);
        NotionalAdds(b, d, q);
      } else {
        var e := b + d - s;
        MarginalCost(rest, 0.0, e, p);
        assert 0.0 + e == e && b + (s - b) == s && s - b + e == d;
        NotionalMonotone(s - b, p, q);
        NotionalAdds(b, s - b, q);
        NotionalAdds(s - b, e, p);
      }
    }
  }

  /** A way to take an amount from the levels. */
  ghost predicate Allocation(levels: seq<BookLevel>, xs: seq<real>) {
    |xs| == |levels| && forall i | 0 <= i < |xs| :: 0.0 <= xs[i] <= levels[i].size
  }

  lemma {:induction false} AllocationBounds(levels: seq<BookLevel>, xs: seq<real>)
    requires Allocation(levels, xs)
    ensures 0.0 <= Sum(xs) <= Total(levels)
  {
    if xs != [] {
      AllocationBounds(levels[1..], xs[1..]);
    }
  }

  /** No allocation of the amount is cheaper than the walk on ascending prices. */
  lemma {:induction false} WalkIsCheapest(levels: seq<BookLevel>, xs: seq<real>)
    requires PositiveSizes(levels) && Ascending(levels) && Allocation(levels, xs)
    ensures WalkCost(levels, Sum(xs)) <= Cost(levels, xs)
  {
    hide Notional;
    if levels != [] {
      TailFacts(levels);
      var (p, s, rest, x) := (levels[0].price, levels[0].size, levels[1..], xs[0]);
      var a := Sum(xs);
      var take := Min(a, s);
      AllocationBounds(rest, xs[1..]);
      WalkIsCheapest(rest, xs[1..]);
      assert Sum(xs[1..]) == a - x;
      // what the walk takes more of the first level, the allocation takes at no better price
      MarginalCost(rest, a - take, take - x, p);
      assert a - take + (take - x) == a - x && x + (take - x) == take;
      NotionalAdds(x, take - x, p);
    }
  }

  // ---------------------------------------------------------------- sellers by mirroring prices

  function Mirror(levels: seq<BookLevel>): seq<BookLevel> {
    seq(|levels|, i requires 0 <= i < |levels| => BookLevel(-levels[i].price, levels[i].size))
  }

  lemma {:induction false} MirrorCost(levels: seq<BookLevel>, xs: seq<real>)
    requires |xs| <= |levels|
    ensures Cost(Mirror(levels), xs) == -Cost(levels, xs)
    decreases |xs|
  {
    if xs != [] {
      MirrorCost(levels[1..], xs[1..]);
      assert Mirror(levels)[1..] == Mirror(levels[1..]);
    }
  }

  lemma {:induction false} MirrorFills(levels: seq<BookLevel>, amount: real)
    ensures Fills(Mirror(levels), amount) == Fills(levels, amount)
    decreases |levels|
  {
    if levels != [] && amount != 0.0 {
      MirrorFills(levels[1..], amount - Min(amount, levels[0].size));
      assert Mirror(levels)[1..] == Mirror(levels[1..]);
    }
  }

  lemma {:induction false} MirrorFacts(levels: seq<BookLevel>, amount: real)
    requires PositiveSizes(levels) && Descending(levels)
    ensures PositiveSizes(Mirror(levels)) && Ascending(Mirror(levels))
    ensures WalkCost(Mirror(levels), amount) == -WalkCost(levels, amount)
    ensures Total(Mirror(levels)) == Total(levels)
  {
    MirrorFills(levels, amount);
    WalkCostIsCost(levels, amount);
    WalkCostIsCost(Mirror(levels), amount);
    MirrorCost(levels, Fills(levels, amount));
    MirrorTotal(levels);
    forall l | l in Mirror(levels) ensures l.size > 0.0 {
      var i :| 0 <= i < |levels| && l == Mirror(levels)[i];
      assert levels[i] in levels;
    }
  }

  lemma {:induction false} MirrorTotal(levels: seq<BookLevel>)
    ensures Total(Mirror(levels)) == Total(levels)
    decreases |levels|
  {
    if levels != [] {
      MirrorTotal(levels[1..]);
      assert Mirror(levels)[1..] == Mirror(levels[1..]);
    }
  }

  lemma {:induction false} WalkIsDearest(levels: seq<BookLevel>, xs: seq<real>)
    requires PositiveSizes(levels) && Descending(levels) && Allocation(levels, xs)
    ensures WalkCost(levels, Sum(xs)) >= Cost(levels, xs)
  {
    MirrorFacts(levels, Sum(xs));
    WalkIsCheapest(Mirror(levels), xs);
    MirrorCost(levels, xs);
  }

  /** Main result: of all ways to take what the walk takes from the levels, the walk is cheapest for
      a buyer on ascending prices and earns most for a seller on descending ones. */
  lemma {:induction false} GreedyIsOptimal(levels: seq<BookLevel>, amount: real, xs: seq<real>)
    requires PositiveSizes(levels) && amount >= 0.0 && Allocation(levels, xs)
    requires Sum(xs) == Sum(Fills(levels, amount))
    ensures Ascending(levels) ==> WalkCost(levels, amount) <= Cost(levels, xs)
    ensures Descending(levels) ==> WalkCost(levels, amount) >= Cost(levels, xs)
  {
    FilledAmount(levels, amount);
    if amount > Total(levels) {
      FillsCapped(levels, amount);
      WalkCostIsCost(levels, amount);
      WalkCostIsCost(levels, Total(levels));
    }
    if Ascending(levels) { WalkIsCheapest(levels, xs); }
    if Descending(levels) { WalkIsDearest(levels, xs); }
  }

  // ---------------------------------------------------------------- convexity

  /** The cost of an amount that ends in the first level, and of one that goes beyond it. */
  lemma {:induction false} FirstLevelCost(levels: seq<BookLevel>, x: real)
    requires levels != [] && PositiveSizes(levels) && x >= 0.0
    ensures var (p, s) := (levels[0].price, levels[0].size);
            && (x <= s ==> WalkCost(levels, x) == Notional(x, p))
            && (x >= s ==> WalkCost(levels, x) == Notional(s, p) + WalkCost(levels[1..], x - s))
  {
    TailFacts(levels);
  }

  /** Main result: the cost of the walk on ascending prices is convex in the amount. The same amount
      more costs at least as much on top of a larger order as on top of a smaller one. */
  lemma {:induction false} WalkIsConvex(levels: seq<BookLevel>, a: real, b: real, d: real)
    requires PositiveSizes(levels) && Ascending(levels)
    requires 0.0 <= a <= b && 0.0 <= d && b + d <= Total(levels)
    ensures WalkCost(levels, a + d) - WalkCost(levels, a) <= WalkCost(levels, b + d) - WalkCost(levels, b)
  {
    hide Notional, WalkCost;
    if levels != [] {
      TailFacts(levels);
      var (p, s, rest) := (levels[0].price, levels[0].size, levels[1..]);
      FirstLevelCost(levels, a);
      FirstLevelCost(levels, b);
      FirstLevelCost(levels, a + d);
      FirstLevelCost(levels, b + d);
      if a >= s {
        WalkIsConvex(rest, a - s, b - s, d);
        assert a - s + d == a + d - s && b - s + d == b + d - s;
      } else if a + d <= s {
        FirstPriceLeast(levels);
        MarginalCost(levels, b, d, p);
        NotionalAdds(a, d, p);
      } else if b >= s {
        var (d1, d2) := (s - a, a + d - s);
        TotalPositive(rest);
        WalkIsConvex(rest, 0.0, b - s, d2);
        MarginalCost(rest, b - s + d2, d1, p);
        NothingCosts(rest);
        NotionalAdds(a, d1, p);
        assert 0.0 + d2 == d2 && b - s + d2 + d1 == b + d - s && a + d1 == s;
      } else {
        MarginalCost(rest, a + d - s, b - a, p);
        NotionalAdds(a, b - a, p);
        assert a + d - s + (b - a) == b + d - s && a + (b - a) == b;
      }
    } else {
      assert d == 0.0;
    }
  }

  lemma {:induction false} NothingCosts(levels: seq<BookLevel>)
    ensures WalkCost(levels, 0.0) == 0.0
  {
  }

  /** And what it earns on descending prices is concave. */
  lemma {:induction false} WalkIsConcave(levels: seq<BookLevel>, a: real, b: real, d: real)
    requires PositiveSizes(levels) && Descending(levels)
    requires 0.0 <= a <= b && 0.0 <= d && b + d <= Total(levels)
    ensures WalkCost(levels, a + d) - WalkCost(levels, a) >= WalkCost(levels, b + d) - WalkCost(levels, b)
  {
    MirrorFacts(levels, a);
    MirrorFacts(levels, b);
    MirrorFacts(levels, a + d);
    MirrorFacts(levels, b + d);
    WalkIsConvex(Mirror(levels), a, b, d);
  }

  /** WalkCost(a) / a <= WalkCost(b) / b, without the division. */
  lemma {:induction false} AverageCostRises(levels: seq<BookLevel>, a: real, b: real)
    requires PositiveSizes(levels) && Ascending(levels)
    requires 0.0 <= a <= b <= Total(levels)
    ensures Notional(b, WalkCost(levels, a)) <= Notional(a, WalkCost(levels, b))
  {
    hide Notional;
    if levels == [] || a == 0.0 {
      assert WalkCost(levels, a) == 0.0 && a == 0.0;
      NotionalZero(b, WalkCost(levels, b));
    } else {
      TailFacts(levels);
      var (p, s, rest) := (levels[0].price, levels[0].size, levels[1..]);
      if a <= s {
        FirstLevelCheapest(levels, b);
        assert WalkCost(levels, a) == Notional(a, p);
        FlatStep(a, b, p, WalkCost(levels, b));
      } else {
        var (a', b') := (a - s, b - s);
        AverageCostRises(rest, a', b');
        MarginalCost(rest, a', b' - a', p);
        assert a' + (b' - a') == b';
        ChordStep(s, p, a', b', WalkCost(rest, a'), WalkCost(rest, b'));
        assert a' + s == a && b' + s == b;
      }
    }
  }

  lemma {:induction false} NotionalZero(a: real, h: real)
    ensures Notional(a, 0.0) == 0.0 && Notional(0.0, h) == 0.0
  {
  }

  lemma {:induction false} FlatStep(a: real, b: real, p: real, h: real)
    requires a >= 0.0 && h >= Notional(b, p)
    ensures Notional(b, Notional(a, p)) <= Notional(a, h)
  {
    MulMonotone(a, b * p, h);
    assert b * (a * p) == a * (b * p);
  }

  lemma {:induction false} FirstPriceLeast(levels: seq<BookLevel>)
    requires levels != [] && Ascending(levels)
    ensures AllAtLeast(levels, levels[0].price)
  {
    forall l | l in levels ensures l.price >= levels[0].price {
      var i :| 0 <= i < |levels| && levels[i] == l;
    }
  }

  lemma {:induction false} FirstLevelCheapest(levels: seq<BookLevel>, b: real)
    requires levels != [] && PositiveSizes(levels) && Ascending(levels) && 0.0 <= b <= Total(levels)
    ensures WalkCost(levels, b) >= Notional(b, levels[0].price)
  {
    hide Notional;
    FirstPriceLeast(levels);
    MarginalCost(levels, 0.0, b, levels[0].price);
  }

  lemma {:induction false} NotionalSplits(a: real, x: real, y: real)
    ensures Notional(a, x) + Notional(a, y) == Notional(a, x + y)
  {
  }

  lemma {:induction false} NotionalSwaps(a: real, b: real, p: real)
    ensures Notional(a, Notional(b, p)) == Notional(b, Notional(a, p))
  {
    assert a * (b * p) == b * (a * p);
  }

  lemma {:induction false} ChordStep(s: real, p: real, a: real, b: real, ha: real, hb: real)
    requires s >= 0.0 && Notional(b, ha) <= Notional(a, hb) && hb - ha >= Notional(b - a, p)
    ensures Notional(b + s, Notional(s, p) + ha) <= Notional(a + s, Notional(s, p) + hb)
  {
    hide Notional;
    var first := Notional(s, p);
    NotionalSplits(b + s, first, ha);
    NotionalSplits(a + s, first, hb);
    NotionalAdds(b, s, first);
    NotionalAdds(b, s, ha);
    NotionalAdds(a, s, first);
    NotionalAdds(a, s, hb);
    NotionalAdds(a, b - a, first);
    assert a + (b - a) == b && ha + (hb - ha) == hb;
    NotionalSplits(s, ha, hb - ha);
    NotionalSwaps(b - a, s, p);
    NotionalMonotone(s, Notional(b - a, p), hb - ha);
  }
}
