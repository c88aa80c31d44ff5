/** Whole runs of a depth-limited book against the unbounded book fed the same accepted deltas. */
module BookRuns {
  import opened Collections
  import opened Options
  import opened Prices
  import opened OrderBook

  datatype BookOp = Apply(delta: FastDelta) | ClearBook

  /** The depth-limited book, the unbounded reference, the prices ever trimmed from either side since
      the last clear, and those of them that no accepted delta has named since they were trimmed. */
  datatype Paired = Paired(
    book: BookState, bids: Levels, asks: Levels, trimmedBids: set<Price>, trimmedAsks: set<Price>,
    lostBids: set<Price>, lostAsks: set<Price>)
  {
    function Reference(side: Side): Levels { if side.BUY? then bids else asks }
    function Trimmed(side: Side): set<Price> { if side.BUY? then trimmedBids else trimmedAsks }
    function Lost(side: Side): set<Price> { if side.BUY? then lostBids else lostAsks }
  }

  /** The prices a trim drops. */
  ghost function Dropped(side: Side, m: Levels, n: nat): set<Price> {
    m.Keys - Top(side, m, n).Keys
  }

  ghost function PairedStep(s: Paired, op: BookOp): Paired {
    match op
    case ClearBook => Paired(s.book.(bids := map[], asks := map[]), map[], map[], {}, {}, {}, {})
    case Apply(d) =>
      var (book', outcome) := ApplyFast(s.book, d);
      if outcome != Applied then s.(book := book')
      else
        var onBids, onAsks := d.side.BUY?, d.side.SELL?;
        var bids := if onBids then SetLevel(s.book.bids, d.price, d.size) else s.book.bids;
        var asks := if onAsks then SetLevel(s.book.asks, d.price, d.size) else s.book.asks;
        Paired(book',
               if onBids then SetLevel(s.bids, d.price, d.size) else s.bids,
               if onAsks then SetLevel(s.asks, d.price, d.size) else s.asks,
               s.trimmedBids + Dropped(BUY, bids, book'.maxDepth),
               s.trimmedAsks + Dropped(SELL, asks, book'.maxDepth),
               (if onBids then s.lostBids - {d.price} else s.lostBids) + Dropped(BUY, bids, book'.maxDepth),
               (if onAsks then s.lostAsks - {d.price} else s.lostAsks) + Dropped(SELL, asks, book'.maxDepth))
  }

  ghost function PairedRun(s: Paired, ops: seq<BookOp>): Paired
    decreases |ops|
  {
    if ops == [] then s else PairedRun(PairedStep(s, ops[0]), ops[1..])
  }

  ghost function Fresh(tokenHash: nat, maxDepth: nat, now: int, tick: Option<Price>): Paired {
    Paired(BookState(tokenHash, 0, now, map[], map[], tick, maxDepth), map[], map[], {}, {}, {}, {})
  }

  /** One side tells the truth: no level is made up, and what is missing is exactly what is lost. */
  ghost predicate Faithful(levels: Levels, reference: Levels, trimmed: set<Price>, lost: set<Price>, depth: nat) {
    && |levels| <= depth
    && (forall p | p in levels :: p in reference && levels[p] == reference[p])
    && (forall p :: p in lost <==> p in reference && p !in levels)
    && lost <= trimmed
  }

  ghost predicate BothFaithful(s: Paired) {
    && Faithful(s.book.bids, s.bids, s.trimmedBids, s.lostBids, s.book.maxDepth)
    && Faithful(s.book.asks, s.asks, s.trimmedAsks, s.lostAsks, s.book.maxDepth)
  }

  lemma {:induction false} SideFaithful(side: Side, levels: Levels, reference: Levels, trimmed: set<Price>,
                                        lost: set<Price>, depth: nat, price: Price, size: int)
    requires Faithful(levels, reference, trimmed, lost, depth)
    ensures var m := SetLevel(levels, price, size);
            Faithful(Top(side, m, depth), SetLevel(reference, price, size), trimmed + Dropped(side, m, depth),
                     lost - {price} + Dropped(side, m, depth), depth)
  {
    TopWithinDepth(side, SetLevel(levels, price, size), depth);
  }

  lemma {:induction false} OtherSideKept(side: Side, levels: Levels, reference: Levels, trimmed: set<Price>,
                                         lost: set<Price>, depth: nat)
    requires Faithful(levels, reference, trimmed, lost, depth)
    ensures Top(side, levels, depth) == levels
    ensures trimmed + Dropped(side, levels, depth) == trimmed && lost + Dropped(side, levels, depth) == lost
  {
    TopOfSmall(side, levels, depth);
  }

  lemma {:induction false} StepFaithful(s: Paired, op: BookOp)
    requires BothFaithful(s)
    ensures BothFaithful(PairedStep(s, op))
  {
    hide Top;
    if op.Apply? {
      var d, n := op.delta, s.book.maxDepth;
      if d.side.BUY? {
        SideFaithful(BUY, s.book.bids, s.bids, s.trimmedBids, s.lostBids, n, d.price, d.size);
        OtherSideKept(SELL, s.book.asks, s.asks, s.trimmedAsks, s.lostAsks, n);
      } else {
        SideFaithful(SELL, s.book.asks, s.asks, s.trimmedAsks, s.lostAsks, n, d.price, d.size);
        OtherSideKept(BUY, s.book.bids, s.bids, s.trimmedBids, s.lostBids, n);
      }
    }
  }

  lemma {:induction false} RunFaithful(s: Paired, ops: seq<BookOp>)
    requires BothFaithful(s)
    ensures BothFaithful(PairedRun(s, ops))
    decreases |ops|
  {
    if ops != [] {
      StepFaithful(s, ops[0]);
      RunFaithful(PairedStep(s, ops[0]), ops[1..]);
    }
  }

  /** Main result: over any run of deltas and clears from a new book, and on both sides, the book
      stays within its depth, holds only levels of the unbounded book with their sizes, and misses
      exactly the lost ones. */
  lemma {:induction false} MissingIsLost(tokenHash: nat, maxDepth: nat, now: int, tick: Option<Price>,
                                         ops: seq<BookOp>, side: Side)
    ensures var s := PairedRun(Fresh(tokenHash, maxDepth, now, tick), ops);
            var levels, reference := s.book.Levels(side), s.Reference(side);
            && |levels| <= maxDepth
            && (forall p | p in levels :: p in reference && levels[p] == reference[p])
            && (forall p :: p in s.Lost(side) <==> p in reference && p !in levels)
            && s.Lost(side) <= s.Trimmed(side)
  {
    var s0 := Fresh(tokenHash, maxDepth, now, tick);
    RunFaithful(s0, ops);
    RunKeepsDepth(s0, ops);
  }

  /** Strictly better than all of some trimmed prices. */
  ghost predicate Beyond(side: Side, prices: set<Price>, p: Price) {
    forall q | q in prices :: Better(side, p, q)
  }

  /** Main result: the best level of the book is the best one on offer if and only if it is better
      than everything lost; a book with no level is right if and only if nothing is lost. */
  lemma {:induction false} BestExact(tokenHash: nat, maxDepth: nat, now: int, tick: Option<Price>,
                                     ops: seq<BookOp>, side: Side)
    ensures var s := PairedRun(Fresh(tokenHash, maxDepth, now, tick), ops);
            var levels, reference, lost := s.book.Levels(side), s.Reference(side), s.Lost(side);
            && (forall b | IsBest(side, levels, b) :: IsBest(side, reference, b) <==> Beyond(side, lost, b))
            && (levels == map[] ==> (reference == map[] <==> lost == {}))
  {
    MissingIsLost(tokenHash, maxDepth, now, tick, ops, side);
    var s := PairedRun(Fresh(tokenHash, maxDepth, now, tick), ops);
    hide PairedRun;
    SideBestExact(side, s.book.Levels(side), s.Reference(side), s.Lost(side));
  }

  lemma {:induction false} SideBestExact(side: Side, levels: Levels, reference: Levels, lost: set<Price>)
    requires forall p | p in levels :: p in reference
    requires forall p :: p in lost <==> p in reference && p !in levels
    ensures forall b | IsBest(side, levels, b) :: IsBest(side, reference, b) <==> Beyond(side, lost, b)
    ensures levels == map[] ==> (reference == map[] <==> lost == {})
  {
    assert reference.Keys == levels.Keys + lost;
    assert reference == map[] <==> reference.Keys == {};
  }

  /** Main result: the whole side is the best `maxDepth` levels on offer if and only if nothing is
      lost, or the side is full and every level of it is better than everything lost. */
  lemma {:induction false} TopExact(tokenHash: nat, maxDepth: nat, now: int, tick: Option<Price>,
                                    ops: seq<BookOp>, side: Side)
    ensures var s := PairedRun(Fresh(tokenHash, maxDepth, now, tick), ops);
            var levels, reference, lost := s.book.Levels(side), s.Reference(side), s.Lost(side);
            levels == Top(side, reference, maxDepth) <==>
              lost == {} || (|levels| == maxDepth && forall p | p in levels :: Beyond(side, lost, p))
  {
    MissingIsLost(tokenHash, maxDepth, now, tick, ops, side);
    var s := PairedRun(Fresh(tokenHash, maxDepth, now, tick), ops);
    hide PairedRun;
    var levels, reference, lost := s.book.Levels(side), s.Reference(side), s.Lost(side);
    assert reference.Keys == levels.Keys + lost;
    if lost == {} {
      assert levels == reference;
      TopOfSmall(side, levels, maxDepth);
    } else if |levels| == maxDepth && forall p | p in levels :: Beyond(side, lost, p) {
      FullIsTop(side, levels, reference, lost);
    } else if levels == Top(side, reference, maxDepth) {
      TopIsFull(side, reference, maxDepth, lost);
    }
  }

  /** As many levels as there may be, all better than the rest, are the top. */
  lemma {:induction false} FullIsTop(side: Side, levels: Levels, reference: Levels, lost: set<Price>)
    requires forall p | p in levels :: p in reference && levels[p] == reference[p]
    requires forall p :: p in lost <==> p in reference && p !in levels
    requires forall p | p in levels :: Beyond(side, lost, p)
    ensures levels == Top(side, reference, |levels|)
  {
    forall p | p in reference ensures |Betters(side, reference, p)| < |levels| <==> p in levels {
      if p in levels {
        SubsetSize(Betters(side, reference, p), levels.Keys - {p});
      } else {
        SubsetSize(levels.Keys, Betters(side, reference, p));
      }
    }
  }

  /** A top that leaves something out is full, and better than what it leaves out. */
  lemma {:induction false} TopIsFull(side: Side, m: Levels, n: nat, lost: set<Price>)
    requires lost != {} && forall p :: p in lost <==> p in m && p !in Top(side, m, n)
    ensures |Top(side, m, n)| == n
    ensures forall p | p in Top(side, m, n) :: Beyond(side, lost, p)
  {
    forall p, q | p in Top(side, m, n) && q in lost ensures Better(side, p, q) {
      if Better(side, q, p) {
        SubsetSize(Betters(side, m, q), Betters(side, m, p));
      }
    }
    var q :| q in lost;
    BettersCount(side, m, q);
    TopSize(side, m, n);
  }

  lemma {:induction false} TopSize(side: Side, m: Levels, n: nat)
    requires |m| >= n
    ensures |Top(side, m, n)| == n
    decreases |m|
  {
    if |m| == n {
      TopOfSmall(side, m, n);
    } else {
      var w := WorstExists(side, m);
      DropWorst(side, m, w, n);
      assert (m - {w}).Keys == m.Keys - {w};
      TopSize(side, m - {w}, n);
    }
  }

  /** So the book agrees with the unbounded one at every price strictly better than the best price
      trimmed since the last clear, and its best level is the true best if it lies there. */
  lemma {:induction false} FrontierTheorem(tokenHash: nat, maxDepth: nat, now: int, tick: Option<Price>,
                                           ops: seq<BookOp>, side: Side)
    ensures var s := PairedRun(Fresh(tokenHash, maxDepth, now, tick), ops);
            var levels, reference := s.book.Levels(side), s.Reference(side);
            && |levels| <= maxDepth
            && (forall p | p in levels :: p in reference && levels[p] == reference[p])
            && (forall p | Beyond(side, s.Trimmed(side), p) :: p in levels <==> p in reference)
            && (forall p | Beyond(side, s.Trimmed(side), p) ::
                  IsBest(side, levels, p) <==> IsBest(side, reference, p))
  {
    MissingIsLost(tokenHash, maxDepth, now, tick, ops, side);
    var s := PairedRun(Fresh(tokenHash, maxDepth, now, tick), ops);
    hide PairedRun;
    var trimmed := s.Trimmed(side);
    forall p | Beyond(side, trimmed, p)
      ensures p in s.book.Levels(side) <==> p in s.Reference(side)
      ensures IsBest(side, s.book.Levels(side), p) <==> IsBest(side, s.Reference(side), p)
    {
      assert p !in trimmed;
    }
  }

  lemma {:induction false} RunKeepsDepth(s: Paired, ops: seq<BookOp>)
    ensures PairedRun(s, ops).book.maxDepth == s.book.maxDepth
    ensures PairedRun(s, ops).book.tick == s.book.tick
    decreases |ops|
  {
    if ops != [] {
      RunKeepsDepth(PairedStep(s, ops[0]), ops[1..]);
    }
  }

  function PutAsk(price: Price, size: int, sequence: nat): BookOp {
    Apply(FastDelta(0, 0, SELL, price, size, sequence))
  }

  /** Four asks on a book of depth 1. */
  function FrontierOps(): seq<BookOp> {
    [PutAsk(10, 5, 1), PutAsk(9, 5, 2), PutAsk(9, 0, 3), PutAsk(11, 5, 4)]
  }

  ghost predicate AsksAre(s: Paired, sequence: nat, asks: Levels, reference: Levels) {
    && s.book.tokenHash == 0 && s.book.tick == None && s.book.maxDepth == 1 && s.book.sequence == sequence
    && s.book.asks == asks && s.asks == reference
  }

  lemma {:induction false} AskStep(s: Paired, n: nat, asks: Levels, reference: Levels, price: Price, size: int,
                                   asks': Levels, reference': Levels, later: seq<BookOp>) returns (s': Paired)
    requires AsksAre(s, n, asks, reference)
    requires Top(SELL, SetLevel(asks, price, size), 1) == asks'
    requires SetLevel(reference, price, size) == reference'
    ensures AsksAre(s', n + 1, asks', reference')
    ensures PairedRun(s, [PutAsk(price, size, n + 1)] + later) == PairedRun(s', later)
  {
    s' := PairedStep(s, PutAsk(price, size, n + 1));
    assert ([PutAsk(price, size, n + 1)] + later)[1..] == later;
  }

  lemma {:induction false} RunEmpty(s: Paired)
    ensures PairedRun(s, []) == s
  {
  }

  lemma {:induction false} FrontierTops()
    ensures var ten, nine, eleven, both: Levels := map[10 := 5], map[9 := 5], map[11 := 5], map[10 := 5, 9 := 5];
            && Top(SELL, ten, 1) == ten && Top(SELL, both, 1) == nine
            && Top(SELL, map[], 1) == map[] && Top(SELL, eleven, 1) == eleven
  {
    var ten, both: Levels := map[10 := 5], map[10 := 5, 9 := 5];
    TopOfSmall(SELL, ten, 1);
    TopOfSmall(SELL, map[], 1);
    TopOfSmall(SELL, map[11 := 5], 1);
    assert Betters(SELL, both, 9) == {} && Betters(SELL, both, 10) == {9};
  }

  lemma {:induction false} FrontierRun()
    ensures AsksAre(PairedRun(Fresh(0, 1, 0, None), FrontierOps()), 4, map[11 := 5], map[10 := 5, 11 := 5])
  {
    hide PairedRun, Top;
    var ten, nine, eleven, none: Levels := map[10 := 5], map[9 := 5], map[11 := 5], map[];
    var both: Levels := map[10 := 5, 9 := 5];
    FrontierTops();
    assert SetLevel(nine, 9, 0) == none && SetLevel(both, 9, 0) == ten;
    var ops := FrontierOps();
    assert ops == [ops[0]] + ops[1..] && ops[1..] == [ops[1]] + ops[2..];
    assert ops[2..] == [ops[2]] + ops[3..] && ops[3..] == [ops[3]] + [];
    var s0 := Fresh(0, 1, 0, None);
    var s1 := AskStep(s0, 0, none, none, 10, 5, ten, ten, ops[1..]);
    var s2 := AskStep(s1, 1, ten, ten, 9, 5, nine, both, ops[2..]);
    var s3 := AskStep(s2, 2, nine, both, 9, 0, none, ten, ops[3..]);
    var s4 := AskStep(s3, 3, none, ten, 11, 5, eleven, map[10 := 5, 11 := 5], []);
    RunEmpty(s4);
  }

  /** And where something better is lost the book is wrong: with depth 1, asks at 10 and 9, the one at 9
      removed and one at 11 added, the best ask is 11 while 10 is still on offer. */
  lemma {:induction false} FrontierNeeded()
    ensures var s := PairedRun(Fresh(0, 1, 0, None), FrontierOps());
            && IsBest(SELL, s.book.asks, 11) && IsBest(SELL, s.asks, 10)
            && s.book.asks != Top(SELL, s.asks, 1)
  {
    FrontierRun();
    TenIsBest();
  }

  lemma {:induction false} TenIsBest()
    ensures var levels, reference: Levels := map[11 := 5], map[10 := 5, 11 := 5];
            IsBest(SELL, levels, 11) && IsBest(SELL, reference, 10) && levels != Top(SELL, reference, 1)
  {
    var reference: Levels := map[10 := 5, 11 := 5];
    assert Betters(SELL, reference, 11) == {10};
    assert 11 !in Top(SELL, reference, 1);
  }

  // ---------------------------------------------------------------- without removals

  /** Setting a level in the top of a book and trimming again gives the top of the book with that
      level set: what was trimmed before does not matter as long as nothing is removed. */
  lemma {:induction false} TopOfSet(side: Side, m: Levels, n: nat, p: Price, size: int)
    requires size != 0
    ensures Top(side, SetLevel(Top(side, m, n), p, size), n) == Top(side, SetLevel(m, p, size), n)
    decreases |m|
  {
    if |m| <= n {
      TopOfSmall(side, m, n);
    } else {
      var w := WorstExists(side, m);
      DropWorst(side, m, w, n);
      assert (m - {w}).Keys == m.Keys - {w};
      TopOfSet(side, m - {w}, n, p, size);
      SetAfterDrop(side, m, w, n, p, size);
    }
  }

  lemma {:induction false} SetAfterDrop(side: Side, m: Levels, w: Price, n: nat, p: Price, size: int)
    requires |m| > n && IsWorst(side, m, w) && size != 0
    ensures Top(side, (m - {w})[p := size], n) == Top(side, m[p := size], n)
  {
    var a, b := (m - {w})[p := size], m[p := size];
    if p == w {
      assert a == b;
    } else {
      // w is behind at least n levels of b, so it is not in its top; whatever w is better than is
      // behind all of m, so neither is that
      assert m.Keys - {w} <= Betters(side, b, w);
      SubsetSize(m.Keys - {w}, Betters(side, b, w));
      assert |m.Keys - {w}| == |m.Keys| - 1;
      forall q | q in a ensures |Betters(side, a, q)| < n <==> |Betters(side, b, q)| < n {
        if Better(side, w, q) {
          assert q == p;
          assert m.Keys - {w} <= Betters(side, a, q) && m.Keys <= Betters(side, b, q);
          SubsetSize(m.Keys - {w}, Betters(side, a, q));
          SubsetSize(m.Keys, Betters(side, b, q));
        } else {
          assert Betters(side, a, q) == Betters(side, b, q);
        }
      }
    }
  }

  ghost predicate NoRemovals(ops: seq<BookOp>) {
    forall op | op in ops :: op.Apply? ==> op.delta.size != 0
  }

  ghost predicate BothTops(s: Paired) {
    && s.book.bids == Top(BUY, s.bids, s.book.maxDepth)
    && s.book.asks == Top(SELL, s.asks, s.book.maxDepth)
  }

  lemma {:induction false} TopOfTop(side: Side, m: Levels, n: nat)
    ensures Top(side, Top(side, m, n), n) == Top(side, m, n)
  {
    TopWithinDepth(side, m, n);
    TopOfSmall(side, Top(side, m, n), n);
  }

  /** Main result: while no level is removed, the book is at all times exactly the best `maxDepth`
      levels of the unbounded book, in which the last size given for a price stands. */
  lemma {:induction false} NoRemovalsTheorem(s: Paired, ops: seq<BookOp>)
    requires BothTops(s) && NoRemovals(ops)
    ensures BothTops(PairedRun(s, ops))
    decreases |ops|
  {
    if ops != [] {
      assert ops[0] in ops;
      var s' := PairedStep(s, ops[0]);
      if ops[0].Apply? {
        var d, n := ops[0].delta, s.book.maxDepth;
        TopOfSet(d.side, s.Reference(d.side), n, d.price, d.size);
        TopOfTop(BUY, s.bids, n);
        TopOfTop(SELL, s.asks, n);
      }
      assert BothTops(s');
      NoRemovalsTheorem(s', ops[1..]);
    }
  }

  // ---------------------------------------------------------------- sequences and ticks

  lemma {:induction false} SequenceNeverBack(s: Paired, ops: seq<BookOp>)
    ensures s.book.sequence <= PairedRun(s, ops).book.sequence
    decreases |ops|
  {
    if ops != [] {
      SequenceNeverBack(PairedStep(s, ops[0]), ops[1..]);
    }
  }

  /** A delta once accepted changes nothing when it is replayed later, whatever came in between. */
  lemma {:induction false} ReplayIsHarmless(s: Paired, d: FastDelta, between: seq<BookOp>)
    requires ApplyFast(s.book, d).1 == Applied
    ensures var later := PairedRun(PairedStep(s, Apply(d)), between).book;
            ApplyFast(later, d) == (later, Stale)
  {
    SequenceNeverBack(PairedStep(s, Apply(d)), between);
  }

  /** A delta is applied exactly if it is newer than the book, for its token and on its ticks, and
      then the book takes over its sequence and timestamp; any other leaves the book alone, in
      particular every delta of another token. */
  lemma {:induction false} AppliedExactly(b: BookState, d: FastDelta)
    ensures var (b', outcome) := ApplyFast(b, d);
            && (outcome == Applied <==>
                  && d.sequence > b.sequence && d.tokenHash == b.tokenHash
                  && (b.tick.Some? && b.tick.value > 0 ==> d.price % b.tick.value == 0))
            && (outcome == Applied ==> b'.sequence == d.sequence && b'.timestamp == d.timestamp)
            && (outcome != Applied ==> b' == b)
  {
  }

  /** A decimal delta of another token never changes the book. */
  lemma {:induction false} OtherTokenIgnored(b: BookState, d: Delta)
    requires d.tokenHash != b.tokenHash
    ensures ApplyDecimal(b, d).0 == b
  {
  }

  ghost predicate OnTicks(b: BookState) {
    b.tick.Some? && b.tick.value > 0 ==>
      && (forall p | p in b.bids :: p % b.tick.value == 0)
      && (forall p | p in b.asks :: p % b.tick.value == 0)
  }

  /** Every level stays on the tick grid the book was given at the start. */
  lemma {:induction false} TicksKept(s: Paired, ops: seq<BookOp>)
    requires OnTicks(s.book)
    ensures OnTicks(PairedRun(s, ops).book)
    decreases |ops|
  {
    if ops != [] {
      TicksKept(PairedStep(s, ops[0]), ops[1..]);
    }
  }

  // ---------------------------------------------------------------- decimal deltas

  /** The decimal path quantises and then does what the fast path does; its extra tick check only
      changes which error is reported. */
  lemma {:induction false} DecimalMatchesFast(b: BookState, d: Delta)
    ensures var quantised := Quantise(d, None);
            if quantised.None? then ApplyDecimal(b, d) == (b, Invalid)
            else
              var (decimal, fast) := (ApplyDecimal(b, d), ApplyFast(b, quantised.value));
              && decimal.0 == fast.0
              && decimal.1 == if TickAllows(b.tick, quantised.value.price) then fast.1 else Invalid
  {
    if b.tick.Some? {
      TickChecksAgree(d.price, b.tick.value);
    }
  }
}
