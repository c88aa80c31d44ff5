/** What the order-book tracker remembers, stated on its inputs: the tracked book of an asset is its
    last snapshot with every later update of that asset applied to it, in order. */
module Tracking {
  import opened Options
  import opened MarketData

  function AssetOf(i: BookInput): string {
    match i case SnapIn(s) => s.asset case UpdIn(u) => u.asset
  }

  predicate Seeds(i: BookInput, asset: string) {
    i.SnapIn? && i.snapshot.asset == asset
  }

  /** The position of the last snapshot of an asset. */
  function LastSeed(inputs: seq<BookInput>, asset: string): (r: Option<nat>)
    ensures r.None? ==> forall j | 0 <= j < |inputs| :: !Seeds(inputs[j], asset)
    ensures r.Some? ==> r.value < |inputs| && Seeds(inputs[r.value], asset)
    ensures r.Some? ==> forall j | r.value < j < |inputs| :: !Seeds(inputs[j], asset)
  {
    if inputs == [] then None
    else if Seeds(inputs[|inputs| - 1], asset) then Some(|inputs| - 1)
    else LastSeed(inputs[..|inputs| - 1], asset)
  }

  /** The updates of an asset among some inputs, in order. */
  function UpdatesOf(inputs: seq<BookInput>, asset: string): seq<Update> {
    if inputs == [] then []
    else
      var last := inputs[|inputs| - 1];
      UpdatesOf(inputs[..|inputs| - 1], asset)
      + if last.UpdIn? && last.update.asset == asset then [last.update] else []
  }

  /** All the updates applied to a book, one after the other. */
  function Applied(step: LevelStep, book: Book, updates: seq<Update>): Book {
    if updates == [] then book
    else step(Applied(step, book, updates[..|updates| - 1]), updates[|updates| - 1])
  }

  /** The book an asset must have after some inputs. */
  function BookOfAsset(step: LevelStep, inputs: seq<BookInput>, asset: string): Option<Book> {
    match LastSeed(inputs, asset)
    case None => None
    case Some(i) => Some(Applied(step, inputs[i].snapshot.book, UpdatesOf(inputs[i + 1..], asset)))
  }

  /** The book the last of some inputs must yield: with its own asset, time and hash. */
  function YieldOfLast(step: LevelStep, inputs: seq<BookInput>): Option<Snapshot>
    requires inputs != []
  {
    match (inputs[|inputs| - 1], BookOfAsset(step, inputs, AssetOf(inputs[|inputs| - 1])))
    case (SnapIn(s), Some(book)) => Some(Snapshot(s.asset, s.ts, s.hash, book))
    case (UpdIn(u), Some(book)) => Some(Snapshot(u.asset, u.ts, u.hash, book))
    case (_, None) => None
  }

  /** All the books some inputs must yield. */
  function Yields(step: LevelStep, inputs: seq<BookInput>): seq<Snapshot> {
    if inputs == [] then []
    else
      var y := YieldOfLast(step, inputs);
      Yields(step, inputs[..|inputs| - 1]) + if y.Some? then [y.value] else []
  }

  lemma {:induction false} LastSeedSnoc(inputs: seq<BookInput>, i: BookInput, asset: string)
    ensures LastSeed(inputs + [i], asset) == if Seeds(i, asset) then Some(|inputs|) else LastSeed(inputs, asset)
  {
    assert (inputs + [i])[..|inputs|] == inputs;
  }

  lemma {:induction false} UpdatesOfSnoc(inputs: seq<BookInput>, i: BookInput, asset: string)
    ensures UpdatesOf(inputs + [i], asset) ==
            UpdatesOf(inputs, asset) + if i.UpdIn? && i.update.asset == asset then [i.update] else []
  {
    assert (inputs + [i])[..|inputs|] == inputs;
  }

  lemma {:induction false} AppliedSnoc(step: LevelStep, book: Book, updates: seq<Update>, u: Update)
    ensures Applied(step, book, updates + [u]) == step(Applied(step, book, updates), u)
  {
    assert (updates + [u])[..|updates|] == updates;
  }

  lemma {:induction false} NoUpdates(step: LevelStep, book: Book, asset: string)
    ensures UpdatesOf([], asset) == [] && Applied(step, book, []) == book
  {
  }

  /** How one more input changes the book of an asset. */
  lemma {:induction false} BookOfAssetSnoc(step: LevelStep, inputs: seq<BookInput>, i: BookInput, asset: string)
    ensures var before := BookOfAsset(step, inputs, asset);
            BookOfAsset(step, inputs + [i], asset) ==
              if AssetOf(i) != asset then before
              else match i
                case SnapIn(s) => Some(s.book)
                case UpdIn(u) => if before.None? then None else Some(step(before.value, u))
  {
    hide LastSeed, UpdatesOf, Applied;
    var all := inputs + [i];
    LastSeedSnoc(inputs, i, asset);
    if Seeds(i, asset) {
      assert all[|inputs|] == i && all[|inputs| + 1..] == [];
      NoUpdates(step, i.snapshot.book, asset);
    } else if LastSeed(inputs, asset).Some? {
      var k := LastSeed(inputs, asset).value;
      var since := inputs[k + 1..];
      assert all[k] == inputs[k] && all[k + 1..] == since + [i];
      UpdatesOfSnoc(since, i, asset);
      if i.UpdIn? && i.update.asset == asset {
        AppliedSnoc(step, inputs[k].snapshot.book, UpdatesOf(since, asset), i.update);
      } else {
        assert UpdatesOf(since, asset) + [] == UpdatesOf(since, asset);
      }
    }
  }

  /** Main result: after any inputs, the tracker has a book for an asset exactly if the asset had a
      snapshot, and it is the last snapshot's book with all later updates of the asset applied. */
  lemma {:induction false} TrackedBook(step: LevelStep, inputs: seq<BookInput>, asset: string)
    ensures var books := BooksAfter(step, map[], inputs);
            BookOfAsset(step, inputs, asset) == if asset in books then Some(books[asset].book) else None
    decreases |inputs|
  {
    if inputs != [] {
      var init, last := inputs[..|inputs| - 1], inputs[|inputs| - 1];
      assert init + [last] == inputs;
      TrackedBook(step, init, asset);
      TrackAllSnoc(step, map[], init, last);
      BookOfAssetSnoc(step, init, last, asset);
    }
  }

  /** Main result: the books a tracker yields are, input by input, the snapshot itself, or for an
      update all updates of its asset since the last snapshot up to and including itself applied to
      that snapshot, with the time and hash of the update; an update before any snapshot yields
      nothing. */
  lemma {:induction false} YieldedBooks(step: LevelStep, inputs: seq<BookInput>)
    ensures TrackAll(step, map[], inputs) == Yields(step, inputs)
    decreases |inputs|
  {
    if inputs != [] {
      var init, last := inputs[..|inputs| - 1], inputs[|inputs| - 1];
      assert init + [last] == inputs;
      YieldedBooks(step, init);
      TrackAllSnoc(step, map[], init, last);
      TrackedBook(step, init, AssetOf(last));
      BookOfAssetSnoc(step, init, last, AssetOf(last));
    }
  }

  /** An input of another asset changes nothing for this one. */
  lemma {:induction false} OtherAssetsApart(step: LevelStep, inputs: seq<BookInput>, i: BookInput, asset: string)
    requires AssetOf(i) != asset
    ensures var (before, after) := (BooksAfter(step, map[], inputs), BooksAfter(step, map[], inputs + [i]));
            && (asset in after <==> asset in before)
            && (asset in before ==> after[asset] == before[asset])
  {
    TrackAllSnoc(step, map[], inputs, i);
  }

  /** The inputs that yield a book: all snapshots, and the updates after a snapshot of their asset. */
  function Yielding(inputs: seq<BookInput>): seq<BookInput> {
    if inputs == [] then []
    else
      var init, last := inputs[..|inputs| - 1], inputs[|inputs| - 1];
      Yielding(init) + if last.SnapIn? || LastSeed(init, AssetOf(last)).Some? then [last] else []
  }
}
