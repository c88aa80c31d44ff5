/** The depth-limited order book: a sorted map of levels per side, updated by deltas and trimmed
    to the best `maxDepth` levels after every one of them. */
module OrderBook {
  import opened Collections
  import opened Options
  import opened Prices

  datatype Side = BUY | SELL

  /** Levels by price; BUY is the side of the bids, SELL that of the asks. */
  type Levels = map<Price, int>

  /** Bids are better the higher they are, asks the lower. */
  predicate Better(side: Side, p: Price, q: Price) {
    if side.BUY? then p > q else p < q
  }

  ghost function Betters(side: Side, m: Levels, p: Price): set<Price> {
    set q | q in m && Better(side, q, p)
  }

  /** The best `n` levels: those with fewer than `n` better ones. */
  ghost function Top(side: Side, m: Levels, n: nat): Levels {
    map p | p in m && |Betters(side, m, p)| < n :: m[p]
  }

  /** Size 0 removes the level, any other size replaces it. */
  function SetLevel(m: Levels, price: Price, size: int): Levels {
    if size == 0 then m - {price} else m[price := size]
  }

  /** Prices and sizes are positive, as in every book fed without negative sizes. */
  ghost predicate PositiveBook(m: Levels) {
    forall p | p in m :: p > 0 && m[p] > 0
  }

  datatype FastDelta = FastDelta(tokenHash: nat, timestamp: int, side: Side, price: Price, size: int, sequence: nat)
  datatype Delta = Delta(tokenHash: nat, timestamp: int, side: Side, price: real, size: real, sequence: nat)

  /** What a delta comes to; all but the first two are the source's validation errors. */
  datatype Outcome = Applied | Stale | TokenMismatch | Misaligned | Invalid

  datatype BookState = BookState(
    tokenHash: nat, sequence: nat, timestamp: int, bids: Levels, asks: Levels,
    tick: Option<Price>, maxDepth: nat)
  {
    function Levels(side: Side): Levels { if side.BUY? then bids else asks }
  }

  /** The effect of a delta in ticks, stated without the trimming loops. */
  ghost function ApplyFast(b: BookState, d: FastDelta): (BookState, Outcome) {
    if d.sequence <= b.sequence then (b, Stale)
    else if d.tokenHash != b.tokenHash then (b, TokenMismatch)
    else if !TickAllows(b.tick, d.price) then (b, Misaligned)
    else
      var bids := if d.side.BUY? then SetLevel(b.bids, d.price, d.size) else b.bids;
      var asks := if d.side.SELL? then SetLevel(b.asks, d.price, d.size) else b.asks;
      (b.(sequence := d.sequence, timestamp := d.timestamp,
          bids := Top(BUY, bids, b.maxDepth), asks := Top(SELL, asks, b.maxDepth)), Applied)
  }

  /** The delta in ticks, None for one that does not fit or is not aligned. */
  function Quantise(d: Delta, tickSize: Option<real>): Option<FastDelta> {
    if tickSize.Some? && !IsPriceTickAligned(d.price, tickSize.value) then None
    else match (DecimalToPrice(d.price), DecimalToQty(d.size))
      case (Some(p), Some(q)) => Some(FastDelta(d.tokenHash, d.timestamp, d.side, p, q, d.sequence))
      case _ => None
  }

  ghost function ApplyDecimal(b: BookState, d: Delta): (BookState, Outcome) {
    match Quantise(d, if b.tick.Some? then Some(PriceToDecimal(b.tick.value)) else None)
    case None => (b, Invalid)
    case Some(fast) => ApplyFast(b, fast)
  }

  // ---------------------------------------------------------------- trimming

  ghost predicate IsWorst(side: Side, m: Levels, w: Price) {
    w in m && forall q | q in m && q != w :: Better(side, q, w)
  }

  ghost predicate IsBest(side: Side, m: Levels, p: Price) {
    p in m && forall q | q in m && q != p :: Better(side, p, q)
  }

  lemma {:induction false} BettersCount(side: Side, m: Levels, p: Price)
    requires p in m
    ensures |Betters(side, m, p)| < |m|
  {
    assert Betters(side, m, p) <= m.Keys - {p};
    SubsetSize(Betters(side, m, p), m.Keys - {p});
    assert |m.Keys - {p}| == |m.Keys| - 1;
  }

  /** A book within its depth is its own top. */
  lemma {:induction false} TopOfSmall(side: Side, m: Levels, n: nat)
    requires |m| <= n
    ensures Top(side, m, n) == m
  {
    forall p | p in m ensures |Betters(side, m, p)| < n {
      BettersCount(side, m, p);
    }
  }

  lemma {:induction false} WorstHasAllBetter(side: Side, m: Levels, w: Price)
    requires IsWorst(side, m, w)
    ensures |Betters(side, m, w)| == |m| - 1
  {
    assert Betters(side, m, w) == m.Keys - {w};
  }

  /** Removing the worst level of a book that is too deep does not change its top. */
  lemma {:induction false} DropWorst(side: Side, m: Levels, w: Price, n: nat)
    requires |m| > n && IsWorst(side, m, w)
    ensures Top(side, m - {w}, n) == Top(side, m, n)
  {
    WorstHasAllBetter(side, m, w);
    forall p | p in m && p != w ensures Betters(side, m - {w}, p) == Betters(side, m, p) {
      assert Better(side, p, w);
    }
  }

  lemma {:induction false} WorstExists(side: Side, m: Levels) returns (w: Price)
    requires m != map[]
    ensures IsWorst(side, m, w)
    decreases |m|
  {
    var p :| p in m;
    var rest := m - {p};
    if rest == map[] {
      assert m.Keys == rest.Keys + {p};
      w := p;
    } else {
      assert |rest| < |m| by { assert rest.Keys == m.Keys - {p}; }
      var v := WorstExists(side, rest);
      w := if Better(side, v, p) then p else v;
      forall q | q in m && q != w ensures Better(side, q, w) {
        if q != p { assert q in rest; }
      }
    }
  }

  /** The top of a book has the levels of the book, and no more than `n`. */
  lemma {:induction false} TopWithinDepth(side: Side, m: Levels, n: nat)
    ensures |Top(side, m, n)| <= n
    decreases |m|
  {
    if |m| <= n {
      TopOfSmall(side, m, n);
    } else {
      var w := WorstExists(side, m);
      DropWorst(side, m, w, n);
      assert (m - {w}).Keys == m.Keys - {w};
      TopWithinDepth(side, m - {w}, n);
    }
  }

  class OrderBook {
    const tokenHash: nat
    const maxDepth: nat
    var sequence: nat
    var timestamp: int
    var bids: Levels
    var asks: Levels
    var tickSizeTicks: Option<Price>

    ghost function State(): BookState
      reads this
    {
      BookState(tokenHash, sequence, timestamp, bids, asks, tickSizeTicks, maxDepth)
    }

    constructor (tokenHash: nat, maxDepth: nat, now: int)
      ensures State() == BookState(tokenHash, 0, now, map[], map[], None, maxDepth)
    {
      this.tokenHash, this.maxDepth := tokenHash, maxDepth;
      sequence, timestamp := 0, now;
      bids, asks, tickSizeTicks := map[], map[], None;
    }

    method Clear()
      modifies this
      ensures State() == old(State()).(bids := map[], asks := map[])
    {
      bids, asks := map[], map[];
    }

    method SetTickSize(tickSize: real) returns (ok: bool)
      modifies this
      ensures ok <==> DecimalToPrice(tickSize).Some?
      ensures State() == if ok then old(State()).(tick := DecimalToPrice(tickSize)) else old(State())
    {
      var ticks := DecimalToPrice(tickSize);
      if ticks.None? {
        return false;
      }
      tickSizeTicks := ticks;
      ok := true;
    }

    /** Removes the level with the least price. */
    method PopFirstBid()
      requires bids != map[]
      modifies this`bids
      ensures exists w :: IsWorst(BUY, old(bids), w) && bids == old(bids) - {w}
    {
      ghost var worst := WorstExists(BUY, bids);
      var w :| w in bids && forall q | q in bids :: w <= q;
      bids := bids - {w};
    }

    /** Removes the level with the greatest price. */
    method PopLastAsk()
      requires asks != map[]
      modifies this`asks
      ensures exists w :: IsWorst(SELL, old(asks), w) && asks == old(asks) - {w}
    {
      ghost var worst := WorstExists(SELL, asks);
      var w :| w in asks && forall q | q in asks :: q <= w;
      asks := asks - {w};
    }

    method TrimDepth()
      modifies this`bids, this`asks
      ensures bids == Top(BUY, old(bids), maxDepth) && asks == Top(SELL, old(asks), maxDepth)
    {
      if |bids| > maxDepth {
        var toRemove := |bids| - maxDepth;
        for i := 0 to toRemove
          invariant |bids| == maxDepth + toRemove - i && asks == old(asks)
          invariant Top(BUY, bids, maxDepth) == Top(BUY, old(bids), maxDepth)
        {
          label before:
          PopFirstBid();
          ghost var w :| IsWorst(BUY, old@before(bids), w) && bids == old@before(bids) - {w};
          DropWorst(BUY, old@before(bids), w, maxDepth);
          assert bids.Keys == old@before(bids).Keys - {w};
        }
      }
      TopOfSmall(BUY, bids, maxDepth);
      if |asks| > maxDepth {
        var toRemove := |asks| - maxDepth;
        for i := 0 to toRemove
          invariant |asks| == maxDepth + toRemove - i && bids == Top(BUY, old(bids), maxDepth)
          invariant Top(SELL, asks, maxDepth) == Top(SELL, old(asks), maxDepth)
        {
          label before:
          PopLastAsk();
          ghost var w :| IsWorst(SELL, old@before(asks), w) && asks == old@before(asks) - {w};
          DropWorst(SELL, old@before(asks), w, maxDepth);
          assert asks.Keys == old@before(asks).Keys - {w};
        }
      }
      TopOfSmall(SELL, asks, maxDepth);
    }

    method ApplyDeltaFast(d: FastDelta) returns (outcome: Outcome)
      modifies this
      ensures (State(), outcome) == ApplyFast(old(State()), d)
    {
      if d.sequence <= sequence {
        return Stale;
      }
      if d.tokenHash != tokenHash {
        return TokenMismatch;
      }
      if tickSizeTicks.Some? {
        var tick := tickSizeTicks.value;
        if tick > 0 && d.price % tick != 0 {
          return Misaligned;
        }
      }
      sequence := d.sequence;
      timestamp := d.timestamp;
      match d.side {
        case BUY => bids := if d.size == 0 then bids - {d.price} else bids[d.price := d.size];
        case SELL => asks := if d.size == 0 then asks - {d.price} else asks[d.price := d.size];
      }
      TrimDepth();
      outcome := Applied;
    }

    method ApplyDelta(d: Delta) returns (outcome: Outcome)
      modifies this
      ensures (State(), outcome) == ApplyDecimal(old(State()), d)
    {
      var tickSize := if tickSizeTicks.Some? then Some(PriceToDecimal(tickSizeTicks.value)) else None;
      var fast := Quantise(d, tickSize);
      if fast.None? {
        return Invalid;
      }
      outcome := ApplyDeltaFast(fast.value);
    }
  }
}
