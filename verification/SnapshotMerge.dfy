/** The same snapshot/update merge as the source writes it three times: draining runs of equal
    timestamps, popping one input at a time, and popping into batches of rows. All three feed
    the tracker the stable sort of snapshots followed by updates. */
module SnapshotMerge {
  import opened Collections
  import opened MarketData
  import opened StableSort
  import opened Tracking
  import opened Options
  import opened Coordinator
  import opened CoordinatorRuns

  function SnapshotInputs(snapshots: seq<Snapshot>): seq<BookInput> {
    seq(|snapshots|, i requires 0 <= i < |snapshots| => SnapIn(snapshots[i]))
  }

  function UpdateInputs(updates: seq<Update>): seq<BookInput> {
    seq(|updates|, i requires 0 <= i < |updates| => UpdIn(updates[i]))
  }

  /** What the tracker is to be fed: by time, snapshots before updates, otherwise as given. */
  function Merged(snapshots: seq<Snapshot>, updates: seq<Update>): seq<BookInput> {
    Sort(SnapshotInputs(snapshots) + UpdateInputs(updates), InputTs)
  }

  ghost predicate BothSorted(snapshots: seq<Snapshot>, updates: seq<Update>) {
    Sorted(snapshots, SnapshotTs) && Sorted(updates, UpdateTs)
  }

  lemma {:induction false} MergedHead(snapshots: seq<Snapshot>, updates: seq<Update>)
    requires BothSorted(snapshots, updates)
    ensures TakesSnapshot(snapshots, updates) ==>
              Merged(snapshots, updates) == [SnapIn(snapshots[0])] + Merged(snapshots[1..], updates)
    ensures !TakesSnapshot(snapshots, updates) && updates != [] ==>
              Merged(snapshots, updates) == [UpdIn(updates[0])] + Merged(snapshots, updates[1..])
    ensures snapshots == [] && updates == [] ==> Merged(snapshots, updates) == []
  {
    var sn, up := SnapshotInputs(snapshots), UpdateInputs(updates);
    if TakesSnapshot(snapshots, updates) {
      var x := SnapIn(snapshots[0]);
      var rest := SnapshotInputs(snapshots[1..]);
      assert sn + up == [] + [x] + (rest + up);
      forall y | y in rest + up ensures InputTs(x) <= InputTs(y) { HeadEarliest(snapshots, updates, y); }
      SortHead([], x, rest + up, InputTs);
      assert [] + (rest + up) == rest + up;
    } else if updates != [] {
      var x := UpdIn(updates[0]);
      var rest := UpdateInputs(updates[1..]);
      assert sn + up == sn + [x] + rest;
      forall y | y in sn ensures InputTs(x) < InputTs(y) {
        var i :| 0 <= i < |sn| && sn[i] == y;
        assert SnapshotTs(snapshots[0]) <= SnapshotTs(snapshots[i]);
      }
      forall y | y in rest ensures InputTs(x) <= InputTs(y) {
        var i :| 0 <= i < |rest| && rest[i] == y;
        assert UpdateTs(updates[0]) <= UpdateTs(updates[i + 1]);
      }
      SortHead(sn, x, rest, InputTs);
    }
  }

  lemma {:induction false} HeadEarliest(snapshots: seq<Snapshot>, updates: seq<Update>, y: BookInput)
    requires BothSorted(snapshots, updates) && TakesSnapshot(snapshots, updates)
    requires y in SnapshotInputs(snapshots[1..]) + UpdateInputs(updates)
    ensures snapshots[0].ts <= InputTs(y)
  {
    var rest, up := SnapshotInputs(snapshots[1..]), UpdateInputs(updates);
    if y in rest {
      var i :| 0 <= i < |rest| && rest[i] == y;
      assert SnapshotTs(snapshots[0]) <= SnapshotTs(snapshots[i + 1]);
    } else {
      assert y in up;
      var i :| 0 <= i < |up| && up[i] == y;
      assert UpdateTs(updates[0]) <= UpdateTs(updates[i]);
    }
  }

  /** Sorting each list first does not change what is merged. */
  lemma {:induction false} MergedOfSorted(snapshots: seq<Snapshot>, updates: seq<Update>)
    ensures BothSorted(Sort(snapshots, SnapshotTs), Sort(updates, UpdateTs))
    ensures Merged(Sort(snapshots, SnapshotTs), Sort(updates, UpdateTs)) == Merged(snapshots, updates)
  {
    SortCorrect(snapshots, SnapshotTs);
    SortCorrect(updates, UpdateTs);
    var sn, up := Sort(snapshots, SnapshotTs), Sort(updates, UpdateTs);
    forall k ensures Bucket(SnapshotInputs(sn), InputTs, k) == Bucket(SnapshotInputs(snapshots), InputTs, k) {
      SnapshotBucket(sn, k);
      SnapshotBucket(snapshots, k);
    }
    forall k ensures Bucket(UpdateInputs(up), InputTs, k) == Bucket(UpdateInputs(updates), InputTs, k) {
      UpdateBucket(up, k);
      UpdateBucket(updates, k);
    }
    SameBucketsConcat(SnapshotInputs(sn), SnapshotInputs(snapshots), UpdateInputs(up), UpdateInputs(updates), InputTs);
    SortSameBuckets(SnapshotInputs(sn) + UpdateInputs(up), SnapshotInputs(snapshots) + UpdateInputs(updates), InputTs);
  }

  lemma {:induction false} SnapshotBucket(s: seq<Snapshot>, k: int)
    ensures Bucket(SnapshotInputs(s), InputTs, k) == SnapshotInputs(Bucket(s, SnapshotTs, k))
  {
    if s != [] {
      SnapshotBucket(s[1..], k);
      assert SnapshotInputs(s)[1..] == SnapshotInputs(s[1..]);
    }
  }

  lemma {:induction false} UpdateBucket(s: seq<Update>, k: int)
    ensures Bucket(UpdateInputs(s), InputTs, k) == UpdateInputs(Bucket(s, UpdateTs, k))
  {
    if s != [] {
      UpdateBucket(s[1..], k);
      assert UpdateInputs(s)[1..] == UpdateInputs(s[1..]);
    }
  }

  // ---------------------------------------------------------------- runs of equal timestamps

  /** `done` and what the tracker will yield from the inputs left make up `goal`. */
  ghost predicate Towards(step: LevelStep, done: seq<Snapshot>, books: Books,
                          sn: seq<Snapshot>, up: seq<Update>, goal: seq<Snapshot>) {
    BothSorted(sn, up) && done + TrackAll(step, books, Merged(sn, up)) == goal
  }

  lemma {:induction false} TowardsStep(step: LevelStep, done: seq<Snapshot>, books: Books,
                                       sn: seq<Snapshot>, up: seq<Update>, goal: seq<Snapshot>)
    requires Towards(step, done, books, sn, up, goal)
    ensures TakesSnapshot(sn, up) ==>
              Towards(step, done + [sn[0]], Track(step, books, SnapIn(sn[0])).0, sn[1..], up, goal)
    ensures !TakesSnapshot(sn, up) && up != [] ==>
              var (books', out) := Track(step, books, UpdIn(up[0]));
              Towards(step, done + (if out.Some? then [out.value] else []), books', sn, up[1..], goal)
    ensures sn == [] && up == [] ==> done == goal
  {
    MergedHead(sn, up);
    if TakesSnapshot(sn, up) {
      var rest := TrackAll(step, Track(step, books, SnapIn(sn[0])).0, Merged(sn[1..], up));
      assert done + ([sn[0]] + rest) == done + [sn[0]] + rest;
    } else if up != [] {
      var (books', out) := Track(step, books, UpdIn(up[0]));
      var yield_ := if out.Some? then [out.value] else [];
      var rest := TrackAll(step, books', Merged(sn, up[1..]));
      assert done + (yield_ + rest) == done + yield_ + rest;
    }
  }

  /** The materialised merge. With no updates the source returns its argument as it is. */
  method ApplyUpdatesToSnapshots(snapshots: seq<Snapshot>, updates: seq<Update>, step: LevelStep)
    returns (merged: seq<Snapshot>)
    ensures updates == [] ==> merged == snapshots
    ensures updates != [] ==> merged == TrackAll(step, map[], Merged(snapshots, updates))
  {
    if updates == [] {
      return snapshots;
    }
    var sn, up := Sort(snapshots, SnapshotTs), Sort(updates, UpdateTs);
    var tracker := new OrderbookTracker(step);
    ghost var goal := TrackAll(step, map[], Merged(snapshots, updates));
    merged := [];
    assert Towards(step, merged, tracker.books, sn, up, goal) by {
      MergedOfSorted(snapshots, updates);
      assert [] + goal == goal;
    }
    while true
      invariant tracker.step == step && Towards(step, merged, tracker.books, sn, up, goal)
      decreases |sn| + |up|
    {
      TowardsStep(step, merged, tracker.books, sn, up, goal);
      if sn != [] && up != [] && sn[0].ts <= up[0].ts {
        var ts := sn[0].ts;
        ghost var before := |sn|;
        while sn != [] && sn[0].ts == ts
          invariant tracker.step == step && Towards(step, merged, tracker.books, sn, up, goal)
          invariant up != [] && ts <= up[0].ts && |sn| <= before
          invariant |sn| == before ==> sn != [] && sn[0].ts == ts
          decreases |sn|
        {
          TowardsStep(step, merged, tracker.books, sn, up, goal);
          var tracked := tracker.ApplySnapshot(sn[0]);
          merged := merged + [tracked];
          sn := sn[1..];
        }
      } else if up != [] {
        var ts := up[0].ts;
        ghost var before := |up|;
        while up != [] && up[0].ts == ts
          invariant tracker.step == step && Towards(step, merged, tracker.books, sn, up, goal)
          invariant (sn == [] || ts < sn[0].ts) && |up| <= before
          invariant |up| == before ==> up != [] && up[0].ts == ts
          decreases |up|
        {
          TowardsStep(step, merged, tracker.books, sn, up, goal);
          var tracked := tracker.ApplyUpdate(up[0]);
          merged := merged + if tracked.Some? then [tracked.value] else [];
          up := up[1..];
        }
      } else if sn != [] {
        while sn != []
          invariant tracker.step == step && Towards(step, merged, tracker.books, sn, up, goal)
          invariant up == []
        {
          TowardsStep(step, merged, tracker.books, sn, up, goal);
          var tracked := tracker.ApplySnapshot(sn[0]);
          merged := merged + [tracked];
          sn := sn[1..];
        }
      } else {
        break;
      }
    }
  }

  lemma {:induction false} SnapshotsYieldThemselves(step: LevelStep, books: Books, snapshots: seq<Snapshot>)
    ensures TrackAll(step, books, SnapshotInputs(snapshots)) == snapshots
    decreases |snapshots|
  {
    if snapshots != [] {
      SnapshotsYieldThemselves(step, Track(step, books, SnapIn(snapshots[0])).0, snapshots[1..]);
      assert SnapshotInputs(snapshots)[1..] == SnapshotInputs(snapshots[1..]);
    }
  }

  /** The early return for an empty update list agrees with the merge exactly when the snapshots
      are in order already. */
  lemma {:induction false} EarlyReturnExact(step: LevelStep, snapshots: seq<Snapshot>)
    ensures TrackAll(step, map[], Merged(snapshots, [])) == snapshots <==> Sorted(snapshots, SnapshotTs)
  {
    var sn := Sort(snapshots, SnapshotTs);
    MergedOfSorted(snapshots, []);
    assert Sort([], UpdateTs) == [];
    assert SnapshotInputs(sn) + UpdateInputs([]) == SnapshotInputs(sn);
    forall i, j | 0 <= i < j < |sn| ensures InputTs(SnapshotInputs(sn)[i]) <= InputTs(SnapshotInputs(sn)[j]) {
      assert SnapshotTs(sn[i]) <= SnapshotTs(sn[j]);
    }
    SortOfSorted(SnapshotInputs(sn), InputTs);
    SnapshotsYieldThemselves(step, map[], sn);
    if Sorted(snapshots, SnapshotTs) { SortOfSorted(snapshots, SnapshotTs); }
  }

  // ---------------------------------------------------------------- one input at a time

  /** The books among delivered events, in order. */
  function BooksIn(events: seq<SystemEvent>): seq<Snapshot> {
    if events == [] then []
    else (if events[0].BookEvent? then [events[0].book] else []) + BooksIn(events[1..])
  }

  function BookOf(e: Option<SystemEvent>): seq<Snapshot> {
    if e.Some? && e.value.BookEvent? then [e.value.book] else []
  }

  /** The books the tracker will yield from what a coordinator has left. */
  function BooksLeft(step: LevelStep, s: Stream): seq<Snapshot> {
    TrackAll(step, s.books, Merged(s.snapshots, s.updates))
  }

  lemma {:induction false} TrackAllCons(step: LevelStep, books: Books, i: BookInput, rest: seq<BookInput>)
    ensures var (books', out) := Track(step, books, i);
            TrackAll(step, books, [i] + rest) == (if out.Some? then [out.value] else []) + TrackAll(step, books', rest)
  {
    assert ([i] + rest)[1..] == rest;
  }

  lemma {:induction false} NothingTracked(step: LevelStep, books: Books)
    ensures TrackAll(step, books, []) == []
  {
  }

  /** The book a turn delivers, if any. */
  function Delivered(turn: Turn): seq<Snapshot> {
    if turn.Return? then BookOf(turn.event) else []
  }

  /** What feeding the tracker one input does, and the books it yields. */
  function Fed(step: LevelStep, books: Books, i: BookInput): (Books, seq<Snapshot>) {
    var (books', out) := Track(step, books, i);
    (books', if out.Some? then [out.value] else [])
  }

  /** One turn feeds the tracker the head of one of the two lists, or nothing. */
  lemma {:induction false} TurnFeedsSnapshot(step: LevelStep, s: Stream)
    ensures var (s', turn) := LoopBody(step, s);
            s'.snapshots != s.snapshots ==>
              && TakesSnapshot(s.snapshots, s.updates) && turn != Return(None)
              && s'.snapshots == s.snapshots[1..] && s'.updates == s.updates
              && (s'.books, Delivered(turn)) == Fed(step, s.books, SnapIn(s.snapshots[0]))
  {
    hide Track, NextDataTs;
  }

  lemma {:induction false} TurnFeedsUpdate(step: LevelStep, s: Stream)
    ensures var (s', turn) := LoopBody(step, s);
            s'.updates != s.updates ==>
              && !TakesSnapshot(s.snapshots, s.updates) && s.updates != [] && turn != Return(None)
              && s'.snapshots == s.snapshots && s'.updates == s.updates[1..]
              && (s'.books, Delivered(turn)) == Fed(step, s.books, UpdIn(s.updates[0]))
  {
    hide Track, NextDataTs;
    NextDataFacts(s);
  }

  lemma {:induction false} TurnFeedsNothing(step: LevelStep, s: Stream)
    ensures var (s', turn) := LoopBody(step, s);
            s'.snapshots == s.snapshots && s'.updates == s.updates ==>
              && s'.books == s.books && Delivered(turn) == []
              && (turn == Return(None) && !s.exhausted ==> s.snapshots == [] && s.updates == [])
  {
    hide Track, NextDataTs;
    NextDataFacts(s);
  }

  /** One turn of the coordinator delivers the next book of the merge, or leaves its books alone. */
  lemma {:induction false} TurnTakesMerged(step: LevelStep, s: Stream)
    requires BothSorted(s.snapshots, s.updates)
    ensures var (s', turn) := LoopBody(step, s);
            && BooksLeft(step, s) == Delivered(turn) + BooksLeft(step, s')
            && (turn == Return(None) && !s.exhausted ==> BooksLeft(step, s) == [])
  {
    hide Merged, TrackAll, LoopBody, Delivered;
    TurnFeedsSnapshot(step, s);
    TurnFeedsUpdate(step, s);
    TurnFeedsNothing(step, s);
    MergedHead(s.snapshots, s.updates);
    var s' := LoopBody(step, s).0;
    if s'.snapshots != s.snapshots {
      TrackAllCons(step, s.books, SnapIn(s.snapshots[0]), Merged(s'.snapshots, s.updates));
    } else if s'.updates != s.updates {
      TrackAllCons(step, s.books, UpdIn(s.updates[0]), Merged(s.snapshots, s'.updates));
    } else {
      NothingTracked(step, s.books);
    }
  }

  lemma {:induction false} NextTakesMerged(step: LevelStep, s: Stream)
    requires Valid(s) && !s.exhausted
    ensures var (s', e) := Next(step, s);
            && BooksLeft(step, s) == BookOf(e) + BooksLeft(step, s')
            && (e.None? ==> BooksLeft(step, s) == [])
    decreases |s.updates| + |s.trades|
  {
    hide BooksLeft;
    TurnTakesMerged(step, s);
    LoopBodyValid(step, s);
    LoopBodyExhausts(step, s);
    if LoopBody(step, s).1.Continue? {
      NextTakesMerged(step, LoopBody(step, s).0);
    }
  }

  /** The books a drained coordinator delivers are those of the merge, from any state. */
  lemma {:induction false} DrainTakesMerged(step: LevelStep, s: Stream)
    requires Valid(s) && !s.exhausted
    ensures BooksIn(Drain(step, s)) == BooksLeft(step, s)
    decreases DataLeft(s), TimersLeft(s)
  {
    hide BooksLeft, Next;
    NextTakesMerged(step, s);
    NextValid(step, s);
    var (s', e) := Next(step, s);
    if e.Some? {
      DrainTakesMerged(step, s');
      assert ([e.value] + Drain(step, s'))[1..] == Drain(step, s');
    }
  }

  /** Main result: the books the streaming coordinator delivers are those the merge yields, so for
      nonempty updates they are the result of `ApplyUpdatesToSnapshots`, and always the books of the
      rows of `WriteSyntheticSnapshots`. */
  lemma {:induction false} StreamDeliversMerged(step: LevelStep, snapshots: seq<Snapshot>, updates: seq<Update>,
                                                trades: seq<Trade>, spots: Option<seq<Spot>>, interval: int)
    requires snapshots != [] && interval > 0
    ensures var s := Init(snapshots, updates, trades, spots, interval);
            && Valid(s)
            && BooksIn(Drain(step, s)) == TrackAll(step, map[], Merged(snapshots, updates))
            && BooksIn(Drain(step, s)) == BooksOf(RowsOf(step, map[], Merged(snapshots, updates)))
            && BooksIn(Drain(step, s)) == Yields(step, Merged(snapshots, updates))
  {
    InitValid(snapshots, updates, trades, spots, interval);
    DrainTakesMerged(step, Init(snapshots, updates, trades, spots, interval));
    MergedOfSorted(snapshots, updates);
    RowsCarryBooks(step, map[], Merged(snapshots, updates));
    YieldedBooks(step, Merged(snapshots, updates));
  }

  // ---------------------------------------------------------------- batches of rows

  /** A row records the book it was made from and the input that caused it. */
  datatype Row = Row(book: Snapshot, cause: BookInput)

  datatype WriteStats = WriteStats(rawSnapshots: nat, syntheticSnapshots: nat, ignoredBeforeSeed: nat, rows: nat)

  function RowsOf(step: LevelStep, books: Books, inputs: seq<BookInput>): seq<Row>
    decreases |inputs|
  {
    if inputs == [] then []
    else
      var (books', out) := Track(step, books, inputs[0]);
      (if out.Some? then [Row(out.value, inputs[0])] else []) + RowsOf(step, books', inputs[1..])
  }

  function BooksOf(rows: seq<Row>): seq<Snapshot> {
    seq(|rows|, i requires 0 <= i < |rows| => rows[i].book)
  }

  /** The rows carry exactly the books of the merge. */
  lemma {:induction false} RowsCarryBooks(step: LevelStep, books: Books, inputs: seq<BookInput>)
    ensures BooksOf(RowsOf(step, books, inputs)) == TrackAll(step, books, inputs)
    decreases |inputs|
  {
    if inputs != [] {
      var (books', out) := Track(step, books, inputs[0]);
      RowsCarryBooks(step, books', inputs[1..]);
      var rest := RowsOf(step, books', inputs[1..]);
      if out.Some? {
        assert BooksOf([Row(out.value, inputs[0])] + rest) == [out.value] + BooksOf(rest);
      } else {
        assert [] + rest == rest;
      }
    }
  }

  function CausesOf(rows: seq<Row>): seq<BookInput> {
    seq(|rows|, i requires 0 <= i < |rows| => rows[i].cause)
  }

  lemma {:induction false} RowsSnoc(step: LevelStep, books: Books, inputs: seq<BookInput>, i: BookInput)
    ensures var out := Track(step, BooksAfter(step, books, inputs), i).1;
            RowsOf(step, books, inputs + [i]) ==
            RowsOf(step, books, inputs) + if out.Some? then [Row(out.value, i)] else []
    decreases |inputs|
  {
    if inputs == [] {
      assert inputs + [i] == [i];
    } else {
      assert (inputs + [i])[1..] == inputs[1..] + [i];
      var (books', out) := Track(step, books, inputs[0]);
      RowsSnoc(step, books', inputs[1..], i);
      var last := Track(step, BooksAfter(step, books, inputs), i).1;
      Associate(if out.Some? then [Row(out.value, inputs[0])] else [], RowsOf(step, books', inputs[1..]),
                if last.Some? then [Row(last.value, i)] else []);
    }
  }

  /** The rows are caused, in order, by the snapshots and by the updates that come after a snapshot of
      their asset. */
  lemma {:induction false} RowsCarryCauses(step: LevelStep, inputs: seq<BookInput>)
    ensures CausesOf(RowsOf(step, map[], inputs)) == Yielding(inputs)
    decreases |inputs|
  {
    if inputs != [] {
      var init, last := inputs[..|inputs| - 1], inputs[|inputs| - 1];
      assert init + [last] == inputs;
      RowsCarryCauses(step, init);
      RowsSnoc(step, map[], init, last);
      TrackedBook(step, init, AssetOf(last));
    }
  }

  /** `done` and the rows of the inputs left make up `goal`. */
  ghost predicate RowsTowards(step: LevelStep, done: seq<Row>, books: Books,
                              sn: seq<Snapshot>, up: seq<Update>, goal: seq<Row>) {
    BothSorted(sn, up) && done + RowsOf(step, books, Merged(sn, up)) == goal
  }

  lemma {:induction false} RowsStep(step: LevelStep, done: seq<Row>, books: Books,
                                    sn: seq<Snapshot>, up: seq<Update>, goal: seq<Row>)
    requires RowsTowards(step, done, books, sn, up, goal)
    ensures TakesSnapshot(sn, up) ==>
              RowsTowards(step, done + [Row(sn[0], SnapIn(sn[0]))], Track(step, books, SnapIn(sn[0])).0, sn[1..], up,
                          goal)
    ensures !TakesSnapshot(sn, up) && up != [] ==>
              var (books', out) := Track(step, books, UpdIn(up[0]));
              RowsTowards(step, done + (if out.Some? then [Row(out.value, UpdIn(up[0]))] else []), books', sn, up[1..],
                          goal)
    ensures sn == [] && up == [] ==> done == goal
  {
    MergedHead(sn, up);
    if TakesSnapshot(sn, up) {
      var row := Row(sn[0], SnapIn(sn[0]));
      var rest := RowsOf(step, Track(step, books, SnapIn(sn[0])).0, Merged(sn[1..], up));
      assert done + ([row] + rest) == done + [row] + rest;
    } else if up != [] {
      var (books', out) := Track(step, books, UpdIn(up[0]));
      var row := if out.Some? then [Row(out.value, UpdIn(up[0]))] else [];
      var rest := RowsOf(step, books', Merged(sn, up[1..]));
      assert done + (row + rest) == done + row + rest;
    }
  }

  /** Writes the buffered rows as one batch; an empty buffer writes nothing. */
  method FlushBatch(batches: seq<seq<Row>>, buffer: seq<Row>) returns (batches': seq<seq<Row>>, wrote: nat)
    ensures Flatten(batches') == Flatten(batches) + buffer && wrote == |buffer|
    ensures batches' == if buffer == [] then batches else batches + [buffer]
  {
    if buffer == [] {
      return batches, 0;
    }
    FlattenSnoc(batches, buffer);
    return batches + [buffer], |buffer|;
  }

  /** One input is taken and tracked; `rows` is the row it yields, if any. */
  method TakeInput(tracker: OrderbookTracker, sn: seq<Snapshot>, up: seq<Update>, ghost done: seq<Row>,
                   ghost goal: seq<Row>)
    returns (rows: seq<Row>, sn': seq<Snapshot>, up': seq<Update>)
    requires RowsTowards(tracker.step, done, tracker.books, sn, up, goal)
    requires sn != [] || up != []
    modifies tracker
    ensures RowsTowards(tracker.step, done + rows, tracker.books, sn', up', goal)
    ensures || (TakesSnapshot(sn, up) && sn' == sn[1..] && up' == up && |rows| == 1)
            || (!TakesSnapshot(sn, up) && sn' == sn && up' == up[1..] && |rows| <= 1)
  {
    RowsStep(tracker.step, done, tracker.books, sn, up, goal);
    if sn != [] && (up == [] || sn[0].ts <= up[0].ts) {
      var tracked := tracker.ApplySnapshot(sn[0]);
      return [Row(tracked, SnapIn(sn[0]))], sn[1..], up;
    }
    var applied := tracker.ApplyUpdate(up[0]);
    rows := if applied.Some? then [Row(applied.value, UpdIn(up[0]))] else [];
    return rows, sn, up[1..];
  }

  lemma {:induction false} FlattenNone<T>()
    ensures Flatten<T>([]) == []
  {
  }

  lemma {:induction false} RowsStart(step: LevelStep, snapshots: seq<Snapshot>, updates: seq<Update>)
    ensures RowsTowards(step, [], map[], Sort(snapshots, SnapshotTs), Sort(updates, UpdateTs),
                        RowsOf(step, map[], Merged(snapshots, updates)))
  {
    var goal := RowsOf(step, map[], Merged(snapshots, updates));
    MergedOfSorted(snapshots, updates);
    assert [] + goal == goal;
  }

  ghost predicate AllFull<T>(batches: seq<seq<T>>, batchSize: nat) {
    forall i | 0 <= i < |batches| :: |batches[i]| == Full(batchSize)
  }

  function Full(batchSize: nat): nat { if batchSize == 0 then 1 else batchSize }

  /** The batch writer with mirroring off: the batches hold the rows of the merge in order, every
      batch but the last is full, and the counts add up. */
  method WriteSyntheticSnapshots(snapshots: seq<Snapshot>, updates: seq<Update>, step: LevelStep, batchSize: nat)
    returns (batches: seq<seq<Row>>, stats: WriteStats)
    ensures Flatten(batches) == RowsOf(step, map[], Merged(snapshots, updates))
    ensures batches != [] ==> AllFull(batches[..|batches| - 1], batchSize)
    ensures batches != [] ==> 1 <= |batches[|batches| - 1]| <= Full(batchSize)
    ensures stats.rows == |Flatten(batches)| == stats.rawSnapshots + stats.syntheticSnapshots
    ensures stats.rawSnapshots == |snapshots|
    ensures stats.syntheticSnapshots + stats.ignoredBeforeSeed == |updates|
  {
    hide RowsTowards, Flatten, RowsOf, Merged, Sort;
    var sn, up := Sort(snapshots, SnapshotTs), Sort(updates, UpdateTs);
    SortLength(snapshots, SnapshotTs);
    SortLength(updates, UpdateTs);
    var tracker := new OrderbookTracker(step);
    ghost var goal := RowsOf(step, map[], Merged(snapshots, updates));
    var buffer: seq<Row> := [];
    batches := [];
    FlattenNone<Row>();
    stats := WriteStats(0, 0, 0, 0);
    ghost var done: seq<Row> := [];
    RowsStart(step, snapshots, updates);
    while sn != [] || up != []
      invariant tracker.step == step
      invariant RowsTowards(step, done, tracker.books, sn, up, goal) && Flatten(batches) + buffer == done
      invariant AllFull(batches, batchSize)
      invariant |buffer| < Full(batchSize)
      invariant stats.rows == |Flatten(batches)|
      invariant stats.rows + |buffer| == stats.rawSnapshots + stats.syntheticSnapshots
      invariant stats.rawSnapshots + |sn| == |snapshots|
      invariant stats.syntheticSnapshots + stats.ignoredBeforeSeed + |up| == |updates|
      decreases |sn| + |up|
    {
      var rows, sn', up' := TakeInput(tracker, sn, up, done, goal);
      Associate(Flatten(batches), buffer, rows);
      done := done + rows;
      if TakesSnapshot(sn, up) {
        stats := stats.(rawSnapshots := stats.rawSnapshots + 1);
      } else if rows != [] {
        stats := stats.(syntheticSnapshots := stats.syntheticSnapshots + 1);
      } else {
        stats := stats.(ignoredBeforeSeed := stats.ignoredBeforeSeed + 1);
      }
      sn, up, buffer := sn', up', buffer + rows;
      if |buffer| >= batchSize {
        var wrote;
        batches, wrote := FlushBatch(batches, buffer);
        stats := stats.(rows := stats.rows + wrote);
        buffer := [];
        assert Flatten(batches) + buffer == Flatten(batches);
      }
    }
    RowsStep(step, done, tracker.books, sn, up, goal);
    var wrote;
    batches, wrote := FlushBatch(batches, buffer);
    stats := stats.(rows := stats.rows + wrote);
  }
}
