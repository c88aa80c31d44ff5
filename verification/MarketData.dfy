/** The events a backtest replays and the tracker that turns order-book inputs into books. */
module MarketData {
  import opened Options

  datatype TradeSide = Buy | Sell
  datatype Level = Level(price: int, size: int)
  datatype Book = Book(bids: seq<Level>, asks: seq<Level>)

  /** Timestamps are integer milliseconds. */
  datatype Snapshot = Snapshot(asset: string, ts: int, hash: string, book: Book)
  datatype Update = Update(asset: string, ts: int, hash: string, side: TradeSide, price: int, size: int,
                           bestBid: int, bestAsk: int)
  datatype Trade = Trade(asset: string, ts: int, price: int, size: int, side: TradeSide)
  datatype Spot = Spot(symbol: string, ts: int, price: int)

  function SnapshotTs(s: Snapshot): int { s.ts }
  function UpdateTs(u: Update): int { u.ts }
  function TradeTs(t: Trade): int { t.ts }
  function SpotTs(s: Spot): int { s.ts }

  /** One input of the tracker. */
  datatype BookInput = SnapIn(snapshot: Snapshot) | UpdIn(update: Update)

  function InputTs(i: BookInput): int {
    match i case SnapIn(s) => s.ts case UpdIn(u) => u.ts
  }

  /** A snapshot goes first if no update is strictly earlier. */
  predicate TakesSnapshot(snapshots: seq<Snapshot>, updates: seq<Update>) {
    snapshots != [] && (updates == [] || snapshots[0].ts <= updates[0].ts)
  }

  /** How an update changes the levels of a book; every result below holds for any choice. */
  type LevelStep = (Book, Update) -> Book

  type Books = map<string, Snapshot>

  /** The effect of one input on the tracked books, and the book it yields: a snapshot always
      yields itself, an update yields a book only once its asset has one. */
  function Track(step: LevelStep, books: Books, i: BookInput): (Books, Option<Snapshot>) {
    match i
    case SnapIn(s) => (books[s.asset := s], Some(s))
    case UpdIn(u) =>
      if u.asset in books then
        var next := Snapshot(u.asset, u.ts, u.hash, step(books[u.asset].book, u));
        (books[u.asset := next], Some(next))
      else (books, None)
  }

  /** The books yielded by a whole input sequence. */
  function TrackAll(step: LevelStep, books: Books, inputs: seq<BookInput>): seq<Snapshot>
    decreases |inputs|
  {
    if inputs == [] then []
    else
      var (books', out) := Track(step, books, inputs[0]);
      (if out.Some? then [out.value] else []) + TrackAll(step, books', inputs[1..])
  }

  function BooksAfter(step: LevelStep, books: Books, inputs: seq<BookInput>): Books
    decreases |inputs|
  {
    if inputs == [] then books else BooksAfter(step, Track(step, books, inputs[0]).0, inputs[1..])
  }

  lemma {:induction false} TrackAllSnoc(step: LevelStep, books: Books, inputs: seq<BookInput>, i: BookInput)
    ensures var last := Track(step, BooksAfter(step, books, inputs), i);
            && BooksAfter(step, books, inputs + [i]) == last.0
            && TrackAll(step, books, inputs + [i]) ==
               TrackAll(step, books, inputs) + if last.1.Some? then [last.1.value] else []
    decreases |inputs|
  {
    if inputs == [] {
      assert inputs + [i] == [i];
    } else {
      assert (inputs + [i])[1..] == inputs[1..] + [i];
      TrackAllSnoc(step, Track(step, books, inputs[0]).0, inputs[1..], i);
    }
  }

  /** Keeps the last known book of every asset. */
  class OrderbookTracker {
    const step: LevelStep
    var books: Books

    constructor (step: LevelStep)
      ensures this.step == step && books == map[]
    {
      this.step := step;
      books := map[];
    }

    method ApplySnapshot(s: Snapshot) returns (r: Snapshot)
      modifies this
      ensures (books, Some(r)) == Track(step, old(books), SnapIn(s))
    {
      books := books[s.asset := s];
      r := s;
    }

    method ApplyUpdate(u: Update) returns (r: Option<Snapshot>)
      modifies this
      ensures (books, r) == Track(step, old(books), UpdIn(u))
    {
      if u.asset !in books {
        return None;
      }
      var tracked := books[u.asset];
      // the asset of the tracked snapshot is the key it was stored under
      tracked := Snapshot(u.asset, u.ts, u.hash, step(tracked.book, u));
      books := books[u.asset := tracked];
      r := Some(tracked);
    }
  }
}
