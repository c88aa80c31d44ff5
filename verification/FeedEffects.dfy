/** What feed messages leave in a book, stated on the levels themselves. */
module FeedEffects {
  import opened Collections
  import opened Options
  import opened Prices
  import opened OrderBook
  import opened BookRuns
  import opened BookFeed
  import opened FeedRuns

  /** A price that a book with this tick size takes. */
  predicate PriceFitsTick(tick: Option<Price>, price: real) {
    && DecimalToPrice(price).Some?
    && (tick.Some? && tick.value > 0 ==> DecimalToPrice(price).value % tick.value == 0)
  }

  /** A side after `size` is quoted at `price`: a size that rounds to zero takes the level away. */
  function AfterQuote(m: Levels, price: Price, size: int): Levels {
    if size == 0 then map p | p in m && p != price :: m[p] else m[price := size]
  }

  ghost predicate WithinDepth(b: BookState) {
    |b.bids| <= b.maxDepth && |b.asks| <= b.maxDepth
  }

  /** Main result for one delta of the feed: a price and size that fit change the level of that price
      on that side, the side is trimmed to its best levels, the other side stays; the book takes the
      new counter and the time. Any other price or size leaves the book alone. The counter always
      moves by one. */
  lemma {:induction false} QuoteEffect(f: Feed, now: int, side: Side, price: real, size: real)
    requires CounterAhead(f) && WithinDepth(f.book)
    ensures var b := f.book;
            var f' := FeedStep(f, b.tokenHash, now, Send(side, price, size)).0;
            && CounterAhead(f') && WithinDepth(f'.book) && f'.counter == f.counter + 1
            && if PriceFitsTick(b.tick, price) && DecimalToQty(size).Some? then
                 var quoted := AfterQuote(b.Levels(side), DecimalToPrice(price).value, DecimalToQty(size).value);
                 && f'.book.Levels(side) == Top(side, quoted, b.maxDepth)
                 && (|quoted| <= b.maxDepth ==> f'.book.Levels(side) == quoted)
                 && (side.BUY? ==> f'.book.asks == b.asks) && (side.SELL? ==> f'.book.bids == b.bids)
                 && f'.book.sequence == f.counter + 1 && f'.book.timestamp == now
                 && f'.book.tick == b.tick && f'.book.maxDepth == b.maxDepth && f'.book.tokenHash == b.tokenHash
               else f'.book == b
  {
    var b := f.book;
    hide Top;
    StepNeverStale(f, b.tokenHash, now, Send(side, price, size));
    DecimalMatchesFast(b, Delta(b.tokenHash, now, side, price, size, f.counter + 1));
    TopOfSmall(BUY, b.bids, b.maxDepth);
    TopOfSmall(SELL, b.asks, b.maxDepth);
    if PriceFitsTick(b.tick, price) && DecimalToQty(size).Some? {
      var p, q := DecimalToPrice(price).value, DecimalToQty(size).value;
      var quoted := AfterQuote(b.Levels(side), p, q);
      assert SetLevel(b.Levels(side), p, q) == quoted;
      TopWithinDepth(side, quoted, b.maxDepth);
      if |quoted| <= b.maxDepth { TopOfSmall(side, quoted, b.maxDepth); }
    }
  }

  /** The one level a best price leaves on an empty side: size one is 10000 units. */
  function OnlyLevel(tick: Option<Price>, best: Option<real>): Levels {
    if best.Some? && PriceFitsTick(tick, best.value) then map[DecimalToPrice(best.value).value := 10000] else map[]
  }

  lemma {:induction false} UnitSize()
    ensures DecimalToQty(1.0) == Some(10000)
  {
    RoundInteger(10000);
  }

  /** One best price quoted on a side that is empty. */
  lemma {:induction false} BestQuoted(f: Feed, now: int, side: Side, best: Option<real>)
    requires CounterAhead(f) && WithinDepth(f.book) && f.book.maxDepth >= 1 && f.book.Levels(side) == map[]
    ensures var f' := FeedRun(f, f.book.tokenHash, now, if best.Some? then [Send(side, best.value, 1.0)] else []);
            && CounterAhead(f') && WithinDepth(f'.book)
            && f'.book.maxDepth == f.book.maxDepth && f'.book.tick == f.book.tick
            && f'.book.tokenHash == f.book.tokenHash
            && f'.book.Levels(side) == OnlyLevel(f.book.tick, best)
            && (side.BUY? ==> f'.book.asks == f.book.asks) && (side.SELL? ==> f'.book.bids == f.book.bids)
  {
    if best.Some? {
      FeedRunOne(f, f.book.tokenHash, now, Send(side, best.value, 1.0));
      QuoteEffect(f, now, side, best.value, 1.0);
      UnitSize();
      if PriceFitsTick(f.book.tick, best.value) {
        var m: Levels := map[DecimalToPrice(best.value).value := 10000];
        assert AfterQuote(map[], DecimalToPrice(best.value).value, 10000) == m;
        assert |m| == 1;
      }
    }
  }

  /** Main result: after a price change with a best bid or a best ask, the bids are exactly the best
      bid with size one if it fits, and the asks exactly the best ask; whatever was there is gone. */
  lemma {:induction false} BestPricesLeft(f: Feed, now: int, c: Change)
    requires CounterAhead(f) && f.book.maxDepth >= 1 && c.asset == f.book.tokenHash
    requires c.bestBid.Some? || c.bestAsk.Some?
    ensures var b := FeedRun(f, c.asset, now, MessageOps(PriceChanges([c]), c.asset)).book;
            b.bids == OnlyLevel(f.book.tick, c.bestBid) && b.asks == OnlyLevel(f.book.tick, c.bestAsk)
  {
    var token := c.asset;
    var bidOps := if c.bestBid.Some? then [Send(BUY, c.bestBid.value, 1.0)] else [];
    var askOps := if c.bestAsk.Some? then [Send(SELL, c.bestAsk.value, 1.0)] else [];
    OneChange(c);
    assert ChangeOps(c) == [Reset] + bidOps + askOps;
    FeedRunConcat(f, token, now, [Reset] + bidOps, askOps);
    FeedRunConcat(f, token, now, [Reset], bidOps);
    FeedRunOne(f, token, now, Reset);
    var f0 := FeedStep(f, token, now, Reset).0;
    BestQuoted(f0, now, BUY, c.bestBid);
    var g := FeedRun(f0, token, now, bidOps);
    BestQuoted(g, now, SELL, c.bestAsk);
  }

  lemma {:induction false} OneChange(c: Change)
    ensures MessageOps(PriceChanges([c]), c.asset) == ChangeOps(c)
  {
    assert [c][0] == c && [c][1..] == [];
    assert ChangesOps([c], c.asset) == ChangeOps(c) + ChangesOps([], c.asset);
    assert ChangeOps(c) + [] == ChangeOps(c);
  }

  /** Main result: after a price change without best prices, the quoted size stands at the quoted
      price, on the asks if it is a sell and on the bids otherwise, and the other side is as it was; a
      price or size that is missing or does not fit changes nothing. */
  lemma {:induction false} PlainChangeLeft(f: Feed, now: int, c: Change)
    requires CounterAhead(f) && WithinDepth(f.book) && c.asset == f.book.tokenHash
    requires c.bestBid.None? && c.bestAsk.None?
    ensures var b := FeedRun(f, c.asset, now, MessageOps(PriceChanges([c]), c.asset)).book;
            if c.price.Some? && c.size.Some? && PriceFitsTick(f.book.tick, c.price.value)
               && DecimalToQty(c.size.value).Some? then
              var p, q := DecimalToPrice(c.price.value).value, DecimalToQty(c.size.value).value;
              if c.sell then
                b.asks == Top(SELL, AfterQuote(f.book.asks, p, q), f.book.maxDepth) && b.bids == f.book.bids
              else
                b.bids == Top(BUY, AfterQuote(f.book.bids, p, q), f.book.maxDepth) && b.asks == f.book.asks
            else b == f.book
  {
    OneChange(c);
    if c.price.Some? && c.size.Some? {
      var side := if c.sell then SELL else BUY;
      FeedRunOne(f, c.asset, now, Send(side, c.price.value, c.size.value));
      QuoteEffect(f, now, side, c.price.value, c.size.value);
    }
  }

  /** The changes of a message take effect one after the other, those of other tokens not at all. */
  lemma {:induction false} ChangesInOrder(f: Feed, token: nat, now: int, changes: seq<Change>, c: Change)
    ensures var g := FeedRun(f, token, now, MessageOps(PriceChanges(changes), token));
            FeedRun(f, token, now, MessageOps(PriceChanges(changes + [c]), token)) ==
              if c.asset == token then FeedRun(g, token, now, MessageOps(PriceChanges([c]), token)) else g
  {
    ChangesOpsConcat(changes, [c], token);
    FeedRunConcat(f, token, now, ChangesOps(changes, token), ChangesOps([c], token));
    if c.asset != token {
      assert [c][1..] == [];
    }
  }

  lemma {:induction false} ChangesOpsConcat(a: seq<Change>, b: seq<Change>, token: nat)
    ensures ChangesOps(a + b, token) == ChangesOps(a, token) + ChangesOps(b, token)
  {
    if a == [] {
      assert a + b == b;
    } else {
      assert (a + b)[0] == a[0] && (a + b)[1..] == a[1..] + b;
      ChangesOpsConcat(a[1..], b, token);
      Associate(ChangeOps(a[0]), ChangesOps(a[1..], token), ChangesOps(b, token));
    }
  }

  /** The items of a snapshot message likewise: each one for the token replaces the book. */
  lemma {:induction false} ItemsInOrder(f: Feed, token: nat, now: int, items: seq<Item>, i: Item)
    ensures var g := FeedRun(f, token, now, MessageOps(Snapshots(items), token));
            FeedRun(f, token, now, MessageOps(Snapshots(items + [i]), token)) ==
              if i.asset == token then FeedRun(g, token, now, SnapshotOps(i.asks, i.bids)) else g
  {
    ItemsOpsConcat(items, [i], token);
    FeedRunConcat(f, token, now, ItemsOps(items, token), ItemsOps([i], token));
    assert [i][1..] == [];
    assert SnapshotOps(i.asks, i.bids) + [] == SnapshotOps(i.asks, i.bids);
  }

  lemma {:induction false} ItemsOpsConcat(a: seq<Item>, b: seq<Item>, token: nat)
    ensures ItemsOps(a + b, token) == ItemsOps(a, token) + ItemsOps(b, token)
  {
    if a == [] {
      assert a + b == b;
    } else {
      assert (a + b)[0] == a[0] && (a + b)[1..] == a[1..] + b;
      ItemsOpsConcat(a[1..], b, token);
      Associate(SnapshotOps(a[0].asks, a[0].bids), ItemsOps(a[1..], token), ItemsOps(b, token));
    }
  }

  /** A snapshot empties the book, then its asks take effect one after the other, then its bids;
      `LevelsInOrder` and `QuoteEffect` say what each level does. */
  lemma {:induction false} SnapshotInOrder(f: Feed, token: nat, now: int, asks: Option<seq<Option<RawLevel>>>,
                                           bids: Option<seq<Option<RawLevel>>>)
    ensures var empty := Feed(f.book.(bids := map[], asks := map[]), f.counter);
            FeedRun(f, token, now, SnapshotOps(asks, bids)) ==
              FeedRun(FeedRun(empty, token, now, LevelOps(SELL, asks.UnwrapOr([]))),
                      token, now, LevelOps(BUY, bids.UnwrapOr([])))
  {
    var (askOps, bidOps) := (LevelOps(SELL, asks.UnwrapOr([])), LevelOps(BUY, bids.UnwrapOr([])));
    FeedRunConcat(f, token, now, [Reset] + askOps, bidOps);
    FeedRunConcat(f, token, now, [Reset], askOps);
    FeedRunOne(f, token, now, Reset);
  }

  /** The levels of a snapshot take effect one after the other; unreadable ones are skipped. */
  lemma {:induction false} LevelsInOrder(f: Feed, token: nat, now: int, side: Side, levels: seq<Option<RawLevel>>,
                                         l: Option<RawLevel>)
    ensures var g := FeedRun(f, token, now, LevelOps(side, levels));
            FeedRun(f, token, now, LevelOps(side, levels + [l])) ==
              if l.None? then g else FeedStep(g, token, now, Send(side, l.value.price, l.value.size)).0
  {
    LevelOpsConcat(side, levels, [l]);
    FeedRunConcat(f, token, now, LevelOps(side, levels), LevelOps(side, [l]));
    assert [l][1..] == [];
    if l.Some? {
      FeedRunOne(FeedRun(f, token, now, LevelOps(side, levels)), token, now, Send(side, l.value.price, l.value.size));
    }
  }

  lemma {:induction false} LevelOpsConcat(side: Side, a: seq<Option<RawLevel>>, b: seq<Option<RawLevel>>)
    ensures LevelOps(side, a + b) == LevelOps(side, a) + LevelOps(side, b)
  {
    if a == [] {
      assert a + b == b;
    } else {
      assert (a + b)[0] == a[0] && (a + b)[1..] == a[1..] + b;
      LevelOpsConcat(side, a[1..], b);
      if a[0].Some? {
        Associate([Send(side, a[0].value.price, a[0].value.size)], LevelOps(side, a[1..]), LevelOps(side, b));
      }
    }
  }

  /** With two different tokens both books get what is addressed to them; if the tokens are the same the
      second book is left alone. */
  lemma {:induction false} SecondBook(f: Feed, m: Message, upToken: nat, downToken: nat, now: int)
    ensures FeedRun(f, downToken, now, DownOps(m, upToken, downToken)) ==
              if upToken == downToken then f else FeedRun(f, downToken, now, MessageOps(m, downToken))
  {
  }
}
