/** The websocket feed of two books: parsed messages become clears and deltas, numbered by a
    counter the caller keeps for each book. */
module BookFeed {
  import opened Options
  import opened OrderBook

  /** A parsed level; in a message it is None when price or size is missing or not a decimal. */
  datatype RawLevel = RawLevel(price: real, size: real)

  datatype Item = Item(asset: nat, asks: Option<seq<Option<RawLevel>>>, bids: Option<seq<Option<RawLevel>>>)
  datatype Change = Change(asset: nat, sell: bool, price: Option<real>, size: Option<real>,
                           bestBid: Option<real>, bestAsk: Option<real>)
  datatype Message = Snapshots(items: seq<Item>) | PriceChanges(changes: seq<Change>) | Unknown

  // ---------------------------------------------------------------- what a message asks of a book

  datatype FeedOp = Reset | Send(side: Side, price: real, size: real)

  function LevelOps(side: Side, levels: seq<Option<RawLevel>>): seq<FeedOp> {
    if levels == [] then []
    else if levels[0].None? then LevelOps(side, levels[1..])
    else [Send(side, levels[0].value.price, levels[0].value.size)] + LevelOps(side, levels[1..])
  }

  /** A snapshot replaces the book: first all asks, then all bids. */
  function SnapshotOps(asks: Option<seq<Option<RawLevel>>>, bids: Option<seq<Option<RawLevel>>>): seq<FeedOp> {
    [Reset] + LevelOps(SELL, if asks.Some? then asks.value else [])
    + LevelOps(BUY, if bids.Some? then bids.value else [])
  }

  /** The best prices replace the book, with placeholder sizes of one. */
  function BestOps(bid: Option<real>, ask: Option<real>): seq<FeedOp> {
    [Reset] + (if bid.Some? then [Send(BUY, bid.value, 1.0)] else [])
    + (if ask.Some? then [Send(SELL, ask.value, 1.0)] else [])
  }

  function ChangeOps(c: Change): seq<FeedOp> {
    if c.bestBid.Some? || c.bestAsk.Some? then BestOps(c.bestBid, c.bestAsk)
    else if c.price.Some? && c.size.Some? then
      [Send(if c.sell then SELL else BUY, c.price.value, c.size.value)]
    else []
  }

  /** What the items addressed to a token ask of its book. */
  function ItemsOps(items: seq<Item>, token: nat): seq<FeedOp> {
    if items == [] then []
    else if items[0].asset != token then ItemsOps(items[1..], token)
    else SnapshotOps(items[0].asks, items[0].bids) + ItemsOps(items[1..], token)
  }

  function ChangesOps(changes: seq<Change>, token: nat): seq<FeedOp> {
    if changes == [] then []
    else if changes[0].asset != token then ChangesOps(changes[1..], token)
    else ChangeOps(changes[0]) + ChangesOps(changes[1..], token)
  }

  function MessageOps(m: Message, token: nat): seq<FeedOp> {
    match m
    case Snapshots(items) => ItemsOps(items, token)
    case PriceChanges(changes) => ChangesOps(changes, token)
    case Unknown => []
  }

  /** A book with the caller's counter. */
  datatype Feed = Feed(book: BookState, counter: nat)

  ghost function FeedStep(f: Feed, asset: nat, now: int, op: FeedOp): (Feed, Option<Outcome>) {
    match op
    case Reset => (Feed(f.book.(bids := map[], asks := map[]), f.counter), None)
    case Send(side, price, size) =>
      var (book, outcome) := ApplyDecimal(f.book, Delta(asset, now, side, price, size, f.counter + 1));
      (Feed(book, f.counter + 1), Some(outcome))
  }

  ghost function FeedRun(f: Feed, asset: nat, now: int, ops: seq<FeedOp>): Feed
    decreases |ops|
  {
    if ops == [] then f else FeedRun(FeedStep(f, asset, now, ops[0]).0, asset, now, ops[1..])
  }

  lemma {:induction false} FeedRunConcat(f: Feed, asset: nat, now: int, a: seq<FeedOp>, b: seq<FeedOp>)
    ensures FeedRun(f, asset, now, a + b) == FeedRun(FeedRun(f, asset, now, a), asset, now, b)
    decreases |a|
  {
    if a == [] {
      assert a + b == b;
    } else {
      assert (a + b)[0] == a[0] && (a + b)[1..] == a[1..] + b;
      FeedRunConcat(FeedStep(f, asset, now, a[0]).0, asset, now, a[1..], b);
    }
  }

  lemma {:induction false} FeedRunCons(f: Feed, asset: nat, now: int, op: FeedOp, ops: seq<FeedOp>)
    ensures FeedRun(f, asset, now, [op] + ops) == FeedRun(FeedStep(f, asset, now, op).0, asset, now, ops)
  {
    assert ([op] + ops)[1..] == ops;
  }

  // ---------------------------------------------------------------- the functions of the feed

  method SendDelta(book: OrderBook, counter: nat, asset: nat, now: int, side: Side, price: real, size: real)
    returns (counter': nat)
    modifies book
    ensures Feed(book.State(), counter') ==
            FeedStep(Feed(old(book.State()), counter), asset, now, Send(side, price, size)).0
  {
    counter' := counter + 1;
    var _ := book.ApplyDelta(Delta(asset, now, side, price, size, counter'));
  }

  method SendLevels(book: OrderBook, counter: nat, asset: nat, now: int, side: Side, levels: seq<Option<RawLevel>>)
    returns (counter': nat)
    modifies book
    ensures Feed(book.State(), counter') ==
            FeedRun(Feed(old(book.State()), counter), asset, now, LevelOps(side, levels))
  {
    counter' := counter;
    var i := 0;
    assert levels[0..] == levels;
    while i < |levels|
      invariant 0 <= i <= |levels|
      invariant FeedRun(Feed(book.State(), counter'), asset, now, LevelOps(side, levels[i..])) ==
                FeedRun(Feed(old(book.State()), counter), asset, now, LevelOps(side, levels))
    {
      assert levels[i..][1..] == levels[i + 1..];
      if levels[i].Some? {
        var level := levels[i].value;
        FeedRunCons(Feed(book.State(), counter'), asset, now, Send(side, level.price, level.size),
                    LevelOps(side, levels[i + 1..]));
        counter' := SendDelta(book, counter', asset, now, side, level.price, level.size);
      }
      i := i + 1;
    }
  }

  method ApplySnapshot(book: OrderBook, counter: nat, asset: nat, now: int,
                       asks: Option<seq<Option<RawLevel>>>, bids: Option<seq<Option<RawLevel>>>)
    returns (counter': nat)
    modifies book
    ensures Feed(book.State(), counter') ==
            FeedRun(Feed(old(book.State()), counter), asset, now, SnapshotOps(asks, bids))
  {
    ghost var f := Feed(book.State(), counter);
    ghost var askOps := LevelOps(SELL, if asks.Some? then asks.value else []);
    ghost var bidOps := LevelOps(BUY, if bids.Some? then bids.value else []);
    FeedRunConcat(f, asset, now, [Reset] + askOps, bidOps);
    FeedRunConcat(f, asset, now, [Reset], askOps);
    FeedRunOne(f, asset, now, Reset);
    book.Clear();
    counter' := counter;
    if asks.Some? {
      counter' := SendLevels(book, counter', asset, now, SELL, asks.value);
    }
    if bids.Some? {
      counter' := SendLevels(book, counter', asset, now, BUY, bids.value);
    }
  }

  lemma {:induction false} FeedRunOne(f: Feed, asset: nat, now: int, op: FeedOp)
    ensures FeedRun(f, asset, now, [op]) == FeedStep(f, asset, now, op).0
  {
    assert [op][1..] == [];
    assert FeedRun(FeedStep(f, asset, now, op).0, asset, now, []) == FeedStep(f, asset, now, op).0;
  }

  method ApplyBestLevels(book: OrderBook, counter: nat, asset: nat, now: int, bid: Option<real>, ask: Option<real>)
    returns (counter': nat)
    modifies book
    ensures Feed(book.State(), counter') ==
            FeedRun(Feed(old(book.State()), counter), asset, now, BestOps(bid, ask))
  {
    ghost var f := Feed(book.State(), counter);
    ghost var bidOps := if bid.Some? then [Send(BUY, bid.value, 1.0)] else [];
    ghost var askOps := if ask.Some? then [Send(SELL, ask.value, 1.0)] else [];
    FeedRunConcat(f, asset, now, [Reset] + bidOps, askOps);
    FeedRunConcat(f, asset, now, [Reset], bidOps);
    FeedRunOne(f, asset, now, Reset);
    book.Clear();
    counter' := counter;
    if bid.Some? {
      FeedRunOne(Feed(book.State(), counter'), asset, now, Send(BUY, bid.value, 1.0));
      counter' := SendDelta(book, counter', asset, now, BUY, bid.value, 1.0);
    }
    if ask.Some? {
      FeedRunOne(Feed(book.State(), counter'), asset, now, Send(SELL, ask.value, 1.0));
      counter' := SendDelta(book, counter', asset, now, SELL, ask.value, 1.0);
    }
  }

  /** What one entry of `price_changes` does to the book it is for. */
  method ApplyChange(book: OrderBook, counter: nat, c: Change, now: int) returns (counter': nat)
    modifies book
    ensures Feed(book.State(), counter') ==
            FeedRun(Feed(old(book.State()), counter), c.asset, now, ChangeOps(c))
  {
    counter' := counter;
    if c.bestBid.Some? || c.bestAsk.Some? {
      counter' := ApplyBestLevels(book, counter, c.asset, now, c.bestBid, c.bestAsk);
    } else if c.price.Some? && c.size.Some? {
      var side := if c.sell then SELL else BUY;
      FeedRunOne(Feed(book.State(), counter), c.asset, now, Send(side, c.price.value, c.size.value));
      counter' := SendDelta(book, counter, c.asset, now, side, c.price.value, c.size.value);
    }
  }

  /** What a message asks of the second book: the first one has precedence if the tokens are equal. */
  function DownOps(m: Message, upToken: nat, downToken: nat): seq<FeedOp> {
    if upToken == downToken then [] else MessageOps(m, downToken)
  }

  method ProcessWsMessage(m: Message, upToken: nat, downToken: nat, upBook: OrderBook, downBook: OrderBook,
                          upSeq: nat, downSeq: nat, now: int)
    returns (handled: bool, upSeq': nat, downSeq': nat)
    requires upBook != downBook
    modifies upBook, downBook
    ensures handled <==> !m.Unknown?
    ensures Feed(upBook.State(), upSeq') ==
            FeedRun(Feed(old(upBook.State()), upSeq), upToken, now, MessageOps(m, upToken))
    ensures Feed(downBook.State(), downSeq') ==
            FeedRun(Feed(old(downBook.State()), downSeq), downToken, now, DownOps(m, upToken, downToken))
  {
    upSeq', downSeq' := upSeq, downSeq;
    match m {
      case Snapshots(items) =>
        upSeq', downSeq' := ProcessItems(items, upToken, downToken, upBook, downBook, upSeq, downSeq, now);
        handled := true;
      case PriceChanges(changes) =>
        upSeq', downSeq' := ProcessChanges(changes, upToken, downToken, upBook, downBook, upSeq, downSeq, now);
        handled := true;
      case Unknown =>
        handled := false;
    }
  }

  method ProcessItems(items: seq<Item>, upToken: nat, downToken: nat, upBook: OrderBook, downBook: OrderBook,
                      upSeq: nat, downSeq: nat, now: int)
    returns (upSeq': nat, downSeq': nat)
    requires upBook != downBook
    modifies upBook, downBook
    ensures Feed(upBook.State(), upSeq') ==
            FeedRun(Feed(old(upBook.State()), upSeq), upToken, now, ItemsOps(items, upToken))
    ensures Feed(downBook.State(), downSeq') ==
            FeedRun(Feed(old(downBook.State()), downSeq), downToken, now,
                    DownOps(Snapshots(items), upToken, downToken))
  {
    upSeq', downSeq' := upSeq, downSeq;
    var i := 0;
    assert items[0..] == items;
    while i < |items|
      invariant 0 <= i <= |items|
      invariant FeedRun(Feed(upBook.State(), upSeq'), upToken, now, ItemsOps(items[i..], upToken)) ==
                FeedRun(Feed(old(upBook.State()), upSeq), upToken, now, ItemsOps(items, upToken))
      invariant FeedRun(Feed(downBook.State(), downSeq'), downToken, now,
                        DownOps(Snapshots(items[i..]), upToken, downToken)) ==
                FeedRun(Feed(old(downBook.State()), downSeq), downToken, now,
                        DownOps(Snapshots(items), upToken, downToken))
    {
      var item := items[i];
      ghost var rest := items[i + 1..];
      assert items[i..][1..] == rest;
      FeedRunConcat(Feed(upBook.State(), upSeq'), upToken, now, SnapshotOps(item.asks, item.bids),
                    ItemsOps(rest, upToken));
      FeedRunConcat(Feed(downBook.State(), downSeq'), downToken, now, SnapshotOps(item.asks, item.bids),
                    ItemsOps(rest, downToken));
      if item.asset == upToken {
        upSeq' := ApplySnapshot(upBook, upSeq', item.asset, now, item.asks, item.bids);
      } else if item.asset == downToken {
        downSeq' := ApplySnapshot(downBook, downSeq', item.asset, now, item.asks, item.bids);
      }
      i := i + 1;
    }
  }

  method ProcessChanges(changes: seq<Change>, upToken: nat, downToken: nat, upBook: OrderBook, downBook: OrderBook,
                        upSeq: nat, downSeq: nat, now: int)
    returns (upSeq': nat, downSeq': nat)
    requires upBook != downBook
    modifies upBook, downBook
    ensures Feed(upBook.State(), upSeq') ==
            FeedRun(Feed(old(upBook.State()), upSeq), upToken, now, ChangesOps(changes, upToken))
    ensures Feed(downBook.State(), downSeq') ==
            FeedRun(Feed(old(downBook.State()), downSeq), downToken, now,
                    DownOps(PriceChanges(changes), upToken, downToken))
  {
    upSeq', downSeq' := upSeq, downSeq;
    var i := 0;
    assert changes[0..] == changes;
    while i < |changes|
      invariant 0 <= i <= |changes|
      invariant FeedRun(Feed(upBook.State(), upSeq'), upToken, now, ChangesOps(changes[i..], upToken)) ==
                FeedRun(Feed(old(upBook.State()), upSeq), upToken, now, ChangesOps(changes, upToken))
      invariant FeedRun(Feed(downBook.State(), downSeq'), downToken, now,
                        DownOps(PriceChanges(changes[i..]), upToken, downToken)) ==
                FeedRun(Feed(old(downBook.State()), downSeq), downToken, now,
                        DownOps(PriceChanges(changes), upToken, downToken))
    {
      var change := changes[i];
      ghost var rest := changes[i + 1..];
      assert changes[i..][1..] == rest;
      FeedRunConcat(Feed(upBook.State(), upSeq'), upToken, now, ChangeOps(change), ChangesOps(rest, upToken));
      FeedRunConcat(Feed(downBook.State(), downSeq'), downToken, now, ChangeOps(change), ChangesOps(rest, downToken));
      if change.asset == upToken {
        upSeq' := ApplyChange(upBook, upSeq', change, now);
      } else if change.asset == downToken {
        downSeq' := ApplyChange(downBook, downSeq', change, now);
      }
      i := i + 1;
    }
  }
}
