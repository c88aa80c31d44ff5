/** What every run of the feed keeps, and what a snapshot leaves behind. */
module FeedRuns {
  import opened Collections
  import opened Options
  import opened Prices
  import opened OrderBook
  import opened BookRuns
  import opened BookFeed

  /** The caller's counter is not behind the book. */
  ghost predicate CounterAhead(f: Feed) {
    f.book.sequence <= f.counter
  }

  /** What the deltas of a run come to, in order. */
  ghost function Outcomes(f: Feed, asset: nat, now: int, ops: seq<FeedOp>): seq<Outcome>
    decreases |ops|
  {
    if ops == [] then []
    else
      var (f', outcome) := FeedStep(f, asset, now, ops[0]);
      (if outcome.Some? then [outcome.value] else []) + Outcomes(f', asset, now, ops[1..])
  }

  lemma {:induction false} StepNeverStale(f: Feed, asset: nat, now: int, op: FeedOp)
    requires CounterAhead(f)
    ensures var (f', outcome) := FeedStep(f, asset, now, op);
            && CounterAhead(f') && f'.book.tokenHash == f.book.tokenHash && f'.book.tick == f.book.tick
            && f'.book.maxDepth == f.book.maxDepth && f.counter <= f'.counter
            && outcome != Some(Stale)
            && (asset == f.book.tokenHash && op.Send? ==>
                  outcome == Some(if Accepted(f.book.tick, op.price, op.size) then Applied else Invalid))
  {
    if op.Send? {
      DecimalMatchesFast(f.book, Delta(asset, now, op.side, op.price, op.size, f.counter + 1));
    }
  }

  /** The prices and sizes a book takes: in range and on the tick grid. */
  predicate Accepted(tick: Option<Price>, price: real, size: real) {
    DecimalToPrice(price).Some? && DecimalToQty(size).Some? && TickAllows(tick, DecimalToPrice(price).value)
  }

  /** What the deltas among the operations must come to: each one is applied exactly when its own
      price and size are accepted. */
  function Verdicts(tick: Option<Price>, ops: seq<FeedOp>): seq<Outcome> {
    if ops == [] then []
    else (if ops[0].Send? then [if Accepted(tick, ops[0].price, ops[0].size) then Applied else Invalid] else [])
         + Verdicts(tick, ops[1..])
  }

  lemma {:induction false} VerdictsConcat(tick: Option<Price>, a: seq<FeedOp>, b: seq<FeedOp>)
    ensures Verdicts(tick, a + b) == Verdicts(tick, a) + Verdicts(tick, b)
  {
    if a == [] {
      assert a + b == b;
    } else {
      assert (a + b)[0] == a[0] && (a + b)[1..] == a[1..] + b;
      VerdictsConcat(tick, a[1..], b);
      hide Accepted;
      var op := a[0];
      Associate(if op.Send? then [if Accepted(tick, op.price, op.size) then Applied else Invalid] else [],
                Verdicts(tick, a[1..]), Verdicts(tick, b));
    }
  }

  /** No delta of the feed is dropped as stale. */
  lemma {:induction false} NeverStale(f: Feed, asset: nat, now: int, ops: seq<FeedOp>)
    requires CounterAhead(f)
    ensures CounterAhead(FeedRun(f, asset, now, ops))
    ensures forall o | o in Outcomes(f, asset, now, ops) :: o != Stale
    ensures asset == f.book.tokenHash ==> Outcomes(f, asset, now, ops) == Verdicts(f.book.tick, ops)
    ensures FeedRun(f, asset, now, ops).book.tokenHash == f.book.tokenHash
    ensures FeedRun(f, asset, now, ops).book.tick == f.book.tick
    decreases |ops|
  {
    if ops != [] {
      StepNeverStale(f, asset, now, ops[0]);
      NeverStale(FeedStep(f, asset, now, ops[0]).0, asset, now, ops[1..]);
    }
  }

  /** A run of messages, each with the time it is processed at, seen from the book of one token;
      `opsOf` says what a message asks of that book. */
  ghost function Session(f: Feed, token: nat, opsOf: Message -> seq<FeedOp>, messages: seq<(Message, int)>): Feed
    decreases |messages|
  {
    if messages == [] then f
    else Session(FeedRun(f, token, messages[0].1, opsOf(messages[0].0)), token, opsOf, messages[1..])
  }

  ghost function SessionOutcomes(f: Feed, token: nat, opsOf: Message -> seq<FeedOp>, messages: seq<(Message, int)>)
    : seq<Outcome>
    decreases |messages|
  {
    if messages == [] then []
    else Outcomes(f, token, messages[0].1, opsOf(messages[0].0)) +
         SessionOutcomes(FeedRun(f, token, messages[0].1, opsOf(messages[0].0)), token, opsOf, messages[1..])
  }

  /** All the operations a run of messages asks of the book. */
  function SessionOps(opsOf: Message -> seq<FeedOp>, messages: seq<(Message, int)>): seq<FeedOp> {
    if messages == [] then [] else opsOf(messages[0].0) + SessionOps(opsOf, messages[1..])
  }

  /** Main result: over any run of messages the counter stays ahead of the book and no delta is stale;
      each delta is applied or refused by its own price and size alone. */
  lemma {:induction false} SessionNeverStale(f: Feed, token: nat, opsOf: Message -> seq<FeedOp>,
                                             messages: seq<(Message, int)>)
    requires CounterAhead(f) && f.book.tokenHash == token
    ensures CounterAhead(Session(f, token, opsOf, messages))
    ensures SessionOutcomes(f, token, opsOf, messages) == Verdicts(f.book.tick, SessionOps(opsOf, messages))
    decreases |messages|
  {
    if messages != [] {
      var ops, now := opsOf(messages[0].0), messages[0].1;
      NeverStale(f, token, now, ops);
      SessionNeverStale(FeedRun(f, token, now, ops), token, opsOf, messages[1..]);
      VerdictsConcat(f.book.tick, ops, SessionOps(opsOf, messages[1..]));
    }
  }

  lemma {:induction false} NothingAddressed(m: Message, token: nat)
    requires match m
             case Snapshots(items) => forall i | i in items :: i.asset != token
             case PriceChanges(changes) => forall c | c in changes :: c.asset != token
             case Unknown => true
    ensures MessageOps(m, token) == []
    decreases match m case Snapshots(items) => |items| case PriceChanges(changes) => |changes| case Unknown => 0
  {
    match m
    case Snapshots(items) =>
      if items != [] {
        assert items[0] in items;
        NothingAddressed(Snapshots(items[1..]), token);
      }
    case PriceChanges(changes) =>
      if changes != [] {
        assert changes[0] in changes;
        NothingAddressed(PriceChanges(changes[1..]), token);
      }
    case Unknown =>
  }

  /** A message that names no asset of this token leaves its book and counter as they are. */
  lemma {:induction false} OtherTokenUntouched(f: Feed, m: Message, token: nat, now: int)
    requires match m
             case Snapshots(items) => forall i | i in items :: i.asset != token
             case PriceChanges(changes) => forall c | c in changes :: c.asset != token
             case Unknown => true
    ensures FeedRun(f, token, now, MessageOps(m, token)) == f
  {
    NothingAddressed(m, token);
  }

  /** Every level stays a multiple of the tick size the book was given. */
  lemma {:induction false} FeedOnTicks(f: Feed, asset: nat, now: int, ops: seq<FeedOp>)
    requires OnTicks(f.book)
    ensures OnTicks(FeedRun(f, asset, now, ops).book)
    ensures FeedRun(f, asset, now, ops).book.tick == f.book.tick
    decreases |ops|
  {
    if ops != [] {
      if ops[0].Send? {
        DecimalMatchesFast(f.book, Delta(asset, now, ops[0].side, ops[0].price, ops[0].size, f.counter + 1));
      }
      FeedOnTicks(FeedStep(f, asset, now, ops[0]).0, asset, now, ops[1..]);
    }
  }

  // ---------------------------------------------------------------- snapshots

  predicate NoNegativeSizes(ops: seq<FeedOp>) {
    forall op | op in ops && op.Send? :: op.size >= 0.0
  }

  lemma {:induction false} QuantisedPositive(price: real, size: real)
    requires size >= 0.0
    ensures DecimalToPrice(price).Some? ==> DecimalToPrice(price).value >= 1
    ensures DecimalToQty(size).Some? ==> DecimalToQty(size).value >= 0
  {
    RoundInteger(0);
    RoundMonotone(0.0, size * 10000.0);
  }

  /** A feed that sends no negative size keeps both sides positive: prices are at least one tick, and
      a size that rounds to zero removes its level. */
  lemma {:induction false} FeedKeepsPositive(f: Feed, asset: nat, now: int, ops: seq<FeedOp>)
    requires PositiveBook(f.book.bids) && PositiveBook(f.book.asks) && NoNegativeSizes(ops)
    ensures var book := FeedRun(f, asset, now, ops).book; PositiveBook(book.bids) && PositiveBook(book.asks)
    decreases |ops|
  {
    if ops != [] {
      var op := ops[0];
      if op.Send? {
        DecimalMatchesFast(f.book, Delta(asset, now, op.side, op.price, op.size, f.counter + 1));
        QuantisedPositive(op.price, op.size);
      }
      FeedKeepsPositive(FeedStep(f, asset, now, op).0, asset, now, ops[1..]);
    }
  }

  /** So do whole sessions; a new book has no level at all. */
  lemma {:induction false} SessionKeepsPositive(f: Feed, token: nat, opsOf: Message -> seq<FeedOp>,
                                                messages: seq<(Message, int)>)
    requires PositiveBook(f.book.bids) && PositiveBook(f.book.asks)
    requires NoNegativeSizes(SessionOps(opsOf, messages))
    ensures var book := Session(f, token, opsOf, messages).book; PositiveBook(book.bids) && PositiveBook(book.asks)
    decreases |messages|
  {
    if messages != [] {
      var ops, now := opsOf(messages[0].0), messages[0].1;
      var all := SessionOps(opsOf, messages);
      assert forall op | op in ops :: op in all;
      assert forall op | op in SessionOps(opsOf, messages[1..]) :: op in all;
      FeedKeepsPositive(f, token, now, ops);
      SessionKeepsPositive(FeedRun(f, token, now, ops), token, opsOf, messages[1..]);
    }
  }

  /** Two books that differ in nothing but when they were last changed. */
  ghost predicate SameLevels(f: Feed, g: Feed) {
    && f.book.bids == g.book.bids && f.book.asks == g.book.asks && f.book.tick == g.book.tick
    && f.book.maxDepth == g.book.maxDepth && f.book.tokenHash == g.book.tokenHash
  }

  lemma {:induction false} SameLevelsKept(f: Feed, g: Feed, asset: nat, now: int, later: int, ops: seq<FeedOp>)
    requires SameLevels(f, g) && CounterAhead(f) && CounterAhead(g)
    ensures SameLevels(FeedRun(f, asset, now, ops), FeedRun(g, asset, later, ops))
    decreases |ops|
  {
    if ops != [] {
      StepNeverStale(f, asset, now, ops[0]);
      StepNeverStale(g, asset, later, ops[0]);
      SameLevelsKept(FeedStep(f, asset, now, ops[0]).0, FeedStep(g, asset, later, ops[0]).0, asset, now, later,
                     ops[1..]);
    }
  }

  /** A snapshot leaves the same levels whatever was in the book before: they depend on the
      snapshot, the tick size and the depth alone. */
  lemma {:induction false} SnapshotDeterminesBook(f: Feed, g: Feed, asset: nat, now: int, later: int,
                         asks: Option<seq<Option<RawLevel>>>, bids: Option<seq<Option<RawLevel>>>)
    requires CounterAhead(f) && CounterAhead(g)
    requires f.book.tick == g.book.tick && f.book.maxDepth == g.book.maxDepth && f.book.tokenHash == g.book.tokenHash
    ensures SameLevels(FeedRun(f, asset, now, SnapshotOps(asks, bids)),
                       FeedRun(g, asset, later, SnapshotOps(asks, bids)))
  {
    var ops := SnapshotOps(asks, bids);
    assert ops == [Reset] + ops[1..];
    FeedRunCons(f, asset, now, Reset, ops[1..]);
    FeedRunCons(g, asset, later, Reset, ops[1..]);
    SameLevelsKept(FeedStep(f, asset, now, Reset).0, FeedStep(g, asset, later, Reset).0, asset, now, later, ops[1..]);
  }

  /** The unbounded side a list of levels describes: accepted entries in order, the last size given
      for a price stands. */
  function Quoted(m: Levels, tick: Option<Price>, levels: seq<Option<RawLevel>>): Levels
    decreases |levels|
  {
    if levels == [] then m
    else if levels[0].Some? && Accepted(tick, levels[0].value.price, levels[0].value.size) then
      Quoted(SetLevel(m, DecimalToPrice(levels[0].value.price).value, DecimalToQty(levels[0].value.size).value),
             tick, levels[1..])
    else Quoted(m, tick, levels[1..])
  }

  /** No accepted entry has a size that rounds to 0. */
  predicate NoZeroSizes(levels: seq<Option<RawLevel>>) {
    forall l | l in levels :: l.Some? ==> DecimalToQty(l.value.size) != Some(0)
  }

  lemma {:induction false} LevelsQuoted(f: Feed, now: int, side: Side, levels: seq<Option<RawLevel>>, bids: Levels,
                                        asks: Levels)
    requires CounterAhead(f) && NoZeroSizes(levels)
    requires f.book.bids == Top(BUY, bids, f.book.maxDepth) && f.book.asks == Top(SELL, asks, f.book.maxDepth)
    ensures var f' := FeedRun(f, f.book.tokenHash, now, LevelOps(side, levels));
            && CounterAhead(f') && f'.book.tick == f.book.tick && f'.book.tokenHash == f.book.tokenHash
            && f'.book.maxDepth == f.book.maxDepth
            && f'.book.bids == Top(BUY, if side.BUY? then Quoted(bids, f.book.tick, levels) else bids, f.book.maxDepth)
            && f'.book.asks == Top(SELL, if side.SELL? then Quoted(asks, f.book.tick, levels) else asks,
                                   f.book.maxDepth)
    decreases |levels|
  {
    if levels != [] {
      assert levels[0] in levels && forall l | l in levels[1..] :: l in levels;
      var token, tick, n := f.book.tokenHash, f.book.tick, f.book.maxDepth;
      if levels[0].None? {
        LevelsQuoted(f, now, side, levels[1..], bids, asks);
      } else {
        var l := levels[0].value;
        var op := Send(side, l.price, l.size);
        FeedRunCons(f, token, now, op, LevelOps(side, levels[1..]));
        StepNeverStale(f, token, now, op);
        var f1 := FeedStep(f, token, now, op).0;
        DecimalMatchesFast(f.book, Delta(token, now, side, l.price, l.size, f.counter + 1));
        if Accepted(tick, l.price, l.size) {
          var p, q := DecimalToPrice(l.price).value, DecimalToQty(l.size).value;
          TopOfTop(BUY, bids, n);
          TopOfTop(SELL, asks, n);
          if side.BUY? {
            TopOfSet(BUY, bids, n, p, q);
            LevelsQuoted(f1, now, side, levels[1..], SetLevel(bids, p, q), asks);
          } else {
            TopOfSet(SELL, asks, n, p, q);
            LevelsQuoted(f1, now, side, levels[1..], bids, SetLevel(asks, p, q));
          }
        } else {
          LevelsQuoted(f1, now, side, levels[1..], bids, asks);
        }
      }
    }
  }

  /** Main result: a snapshot without zero sizes leaves, on both sides, exactly the best `maxDepth`
      of the levels it quotes. */
  lemma {:induction false} SnapshotLeavesTop(f: Feed, now: int, asks: seq<Option<RawLevel>>,
                                             bids: seq<Option<RawLevel>>)
    requires CounterAhead(f) && NoZeroSizes(asks) && NoZeroSizes(bids)
    ensures var book := FeedRun(f, f.book.tokenHash, now, SnapshotOps(Some(asks), Some(bids))).book;
            && book.asks == Top(SELL, Quoted(map[], f.book.tick, asks), f.book.maxDepth)
            && book.bids == Top(BUY, Quoted(map[], f.book.tick, bids), f.book.maxDepth)
  {
    var token, n := f.book.tokenHash, f.book.maxDepth;
    var f0 := FeedStep(f, token, now, Reset).0;
    FeedRunOne(f, token, now, Reset);
    FeedRunConcat(f, token, now, [Reset] + LevelOps(SELL, asks), LevelOps(BUY, bids));
    FeedRunConcat(f, token, now, [Reset], LevelOps(SELL, asks));
    TopOfSmall(BUY, map[], n);
    TopOfSmall(SELL, map[], n);
    LevelsQuoted(f0, now, SELL, asks, map[], map[]);
    var f1 := FeedRun(f0, token, now, LevelOps(SELL, asks));
    LevelsQuoted(f1, now, BUY, bids, map[], Quoted(map[], f.book.tick, asks));
  }
}
