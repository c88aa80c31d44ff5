/** What whole runs of the streaming coordinator deliver. */
module CoordinatorRuns {
  import opened Options
  import opened MarketData
  import opened StableSort
  import opened Coordinator
  import opened Arithmetic

  // ---------------------------------------------------------------- the eager reference

  datatype Input = TimerIn(at: int) | TradeIn(trade: Trade) | SpotIn(spot: Spot) | BookIn(book: BookInput)

  function Ts(i: Input): int {
    match i
    case TimerIn(at) => at
    case TradeIn(t) => t.ts
    case SpotIn(s) => s.ts
    case BookIn(b) => InputTs(b)
  }

  function EventTs(e: SystemEvent): int
    requires !e.Queued?
  {
    match e
    case Timer(ts) => ts
    case TradeEvent(t) => t.ts
    case SpotEvent(s) => s.ts
    case BookEvent(b) => b.ts
  }

  /** The timer grid from `next` in steps of `interval` up to and including `end`. */
  function Grid(next: int, interval: int, end: int): seq<Input>
    requires interval > 0
    decreases end - next
  {
    if next > end then [] else [TimerIn(next)] + Grid(next + interval, interval, end)
  }

  /** The inputs `f` makes of a list, dropping those it maps to None. */
  function Lift<A>(s: seq<A>, f: A -> Option<Input>): seq<Input> {
    if s == [] then []
    else (if f(s[0]).Some? then [f(s[0]).value] else []) + Lift(s[1..], f)
  }

  function KeepTrade(first: int): Trade -> Option<Input> {
    (t: Trade) => if t.ts >= first then Some(TradeIn(t)) else None
  }

  function KeepSpot(): Spot -> Option<Input> {
    (s: Spot) => Some(SpotIn(s))
  }

  function KeepSnapshot(): Snapshot -> Option<Input> {
    (s: Snapshot) => Some(BookIn(SnapIn(s)))
  }

  /** An update is seeded if its asset is tracked already or has a snapshot no later than it. */
  ghost predicate Seeded(assets: set<string>, snapshots: seq<Snapshot>, u: Update) {
    u.asset in assets || exists s | s in snapshots :: s.asset == u.asset && s.ts <= u.ts
  }

  ghost function KeepSeeded(assets: set<string>, snapshots: seq<Snapshot>): Update -> Option<Input> {
    (u: Update) => if Seeded(assets, snapshots, u) then Some(BookIn(UpdIn(u))) else None
  }

  /** Everything a state has still to deliver, kind by kind in order of rank. */
  ghost function Eager(s: Stream): seq<Input>
    requires s.timer.interval > 0 && s.timer.endTime.Some?
  {
    Grid(s.timer.nextTimer, s.timer.interval, s.timer.endTime.value)
    + Lift(s.trades, KeepTrade(s.firstSnapshotTs))
    + Lift(s.spots, KeepSpot())
    + Lift(s.snapshots, KeepSnapshot())
    + Lift(s.updates, KeepSeeded(s.books.Keys, s.snapshots))
  }

  /** What one input looks like to the caller once the tracker has seen it. */
  function DeliverOne(step: LevelStep, books: Books, i: Input): (Books, Option<SystemEvent>) {
    match i
    case TimerIn(at) => (books, Some(Timer(at)))
    case TradeIn(t) => (books, Some(TradeEvent(t)))
    case SpotIn(s) => (books, Some(SpotEvent(s)))
    case BookIn(b) =>
      var (books', out) := Track(step, books, b);
      (books', if out.Some? then Some(BookEvent(out.value)) else None)
  }

  function Deliver(step: LevelStep, books: Books, inputs: seq<Input>): seq<SystemEvent>
    decreases |inputs|
  {
    if inputs == [] then []
    else
      var (books', e) := DeliverOne(step, books, inputs[0]);
      (if e.Some? then [e.value] else []) + Deliver(step, books', inputs[1..])
  }

  // ---------------------------------------------------------------- runs

  /** What every state of a run keeps: sorted streams, and data at the end time or later as long
      as a timer is due by then. */
  ghost predicate Valid(s: Stream) {
    && s.timer.interval > 0
    && s.timer.endTime.Some?
    && SortedStreams(s)
    && (s.timer.nextTimer <= s.timer.endTime.value ==> EndPending(s))
    && (s.exhausted ==> NextDataTs(s).None?)
  }

  ghost predicate SortedStreams(s: Stream) {
    && Sorted(s.snapshots, SnapshotTs) && Sorted(s.updates, UpdateTs)
    && Sorted(s.trades, TradeTs) && Sorted(s.spots, SpotTs)
  }

  ghost predicate EndPending(s: Stream)
    requires s.timer.endTime.Some?
  {
    || (s.snapshots != [] && s.snapshots[|s.snapshots| - 1].ts >= s.timer.endTime.value)
    || (s.updates != [] && s.updates[|s.updates| - 1].ts >= s.timer.endTime.value)
  }

  ghost function DataLeft(s: Stream): nat {
    |s.queue| + |s.snapshots| + |s.updates| + |s.trades| + |s.spots|
  }

  ghost function TimersLeft(s: Stream): nat
    requires s.timer.endTime.Some?
  {
    if s.timer.nextTimer > s.timer.endTime.value then 0 else s.timer.endTime.value - s.timer.nextTimer + 1
  }

  lemma {:induction false} TailSorted<T>(s: seq<T>, key: T -> int)
    requires Sorted(s, key) && s != []
    ensures Sorted(s[1..], key)
    ensures forall i | 0 <= i < |s| :: key(s[0]) <= key(s[i])
  {
  }

  /** A book input taken when no timer is due leaves data at the end time or no timers. */
  lemma {:induction false} PopKeepsEnd(s: Stream, s': Stream)
    requires Valid(s) && NextDataTs(s).Some? && !s.timer.ShouldEmit(NextDataTs(s).value)
    requires s'.timer == s.timer
    requires || (TakesSnapshot(s.snapshots, s.updates) && s'.snapshots == s.snapshots[1..] && s'.updates == s.updates)
             || (!TakesSnapshot(s.snapshots, s.updates) && s.updates != [] && s'.snapshots == s.snapshots
                 && s'.updates == s.updates[1..])
    requires Some(NextDataTs(s).value) == NextBookTs(s)
    ensures s.timer.nextTimer <= s.timer.endTime.value ==> EndPending(s')
  {
  }

  /** The next data time is that of a trade, a spot price or a book input, if there is any. */
  lemma {:induction false} NextDataFacts(s: Stream)
    ensures match NextDataTs(s)
            case None => s.trades == [] && s.spots == [] && s.snapshots == [] && s.updates == []
            case Some(t) =>
              || (s.trades != [] && s.trades[0].ts == t)
              || (s.spots != [] && s.spots[0].ts == t)
              || s.snapshots != [] || s.updates != []
  {
  }

  /** Of trades, spot prices, snapshots and updates a turn takes the head or nothing. */
  lemma {:induction false} LoopBodySuffixes(step: LevelStep, s: Stream)
    ensures var s' := LoopBody(step, s).0;
            && (s'.trades == s.trades || (s.trades != [] && s'.trades == s.trades[1..]))
            && (s'.spots == s.spots || (s.spots != [] && s'.spots == s.spots[1..]))
            && (s'.snapshots == s.snapshots || (s.snapshots != [] && s'.snapshots == s.snapshots[1..]))
            && (s'.updates == s.updates || (s.updates != [] && s'.updates == s.updates[1..]))
  {
    hide LoopBody;
    LoopBodyTrades(step, s);
    LoopBodyBooks(step, s);
  }

  lemma {:induction false} LoopBodyTrades(step: LevelStep, s: Stream)
    ensures var s' := LoopBody(step, s).0;
            && (s'.trades == s.trades || (s.trades != [] && s'.trades == s.trades[1..]))
            && (s'.spots == s.spots || (s.spots != [] && s'.spots == s.spots[1..]))
  {
    hide Track, NextDataTs;
  }

  lemma {:induction false} LoopBodyBooks(step: LevelStep, s: Stream)
    ensures var s' := LoopBody(step, s).0;
            && (s'.snapshots == s.snapshots || (s.snapshots != [] && s'.snapshots == s.snapshots[1..]))
            && (s'.updates == s.updates || (s.updates != [] && s'.updates == s.updates[1..]))
  {
    hide Track, NextDataTs;
    NextDataFacts(s);
  }

  lemma {:induction false} LoopBodySorted(step: LevelStep, s: Stream)
    requires SortedStreams(s)
    ensures SortedStreams(LoopBody(step, s).0)
  {
    LoopBodySuffixes(step, s);
    if s.trades != [] { TailSorted(s.trades, TradeTs); }
    if s.spots != [] { TailSorted(s.spots, SpotTs); }
    if s.snapshots != [] { TailSorted(s.snapshots, SnapshotTs); }
    if s.updates != [] { TailSorted(s.updates, UpdateTs); }
  }

  /** Every turn that does not end the run uses up data or a timer. */
  lemma {:induction false} LoopBodyProgress(step: LevelStep, s: Stream)
    requires s.timer.interval > 0 && s.timer.endTime.Some?
    ensures var (s', turn) := LoopBody(step, s);
            && DataLeft(s') <= DataLeft(s)
            && s'.timer.interval == s.timer.interval && s'.timer.endTime == s.timer.endTime
            && (turn != Return(None) ==> DataLeft(s') < DataLeft(s) ||
                                         (DataLeft(s') == DataLeft(s) && TimersLeft(s') < TimersLeft(s)))
  {
    hide Track, NextDataTs;
    NextDataFacts(s);
  }

  lemma {:induction false} LoopBodyEnd(step: LevelStep, s: Stream)
    requires Valid(s)
    ensures var s' := LoopBody(step, s).0;
            s'.timer.nextTimer <= s.timer.endTime.value ==> EndPending(s)
    ensures s.timer.nextTimer <= LoopBody(step, s).0.timer.nextTimer
  {
  }

  lemma {:induction false} PopIsBook(step: LevelStep, s: Stream)
    ensures var s' := LoopBody(step, s).0;
            (s'.snapshots == s.snapshots && s'.updates == s.updates) ||
            (&& NextDataTs(s).Some? && !s.timer.ShouldEmit(NextDataTs(s).value)
             && s'.timer == s.timer && NextDataTs(s) == NextBookTs(s)
             && ((TakesSnapshot(s.snapshots, s.updates) && s'.snapshots == s.snapshots[1..]
                  && s'.updates == s.updates) ||
                 (!TakesSnapshot(s.snapshots, s.updates) && s.updates != [] && s'.snapshots == s.snapshots
                  && s'.updates == s.updates[1..])))
  {
  }

  lemma {:induction false} LoopBodyExhausts(step: LevelStep, s: Stream)
    requires s.exhausted ==> NextDataTs(s).None?
    ensures var (s', turn) := LoopBody(step, s);
            && (s'.exhausted ==> NextDataTs(s').None?)
            && (turn == Return(None) <==> s'.exhausted)
  {
  }

  lemma {:induction false} LoopBodyValid(step: LevelStep, s: Stream)
    requires Valid(s)
    ensures Valid(LoopBody(step, s).0)
  {
    LoopBodySorted(step, s);
    LoopBodyProgress(step, s);
    LoopBodyEnd(step, s);
    PopIsBook(step, s);
    LoopBodyExhausts(step, s);
    var s' := LoopBody(step, s).0;
    if s'.snapshots != s.snapshots || s'.updates != s.updates {
      PopKeepsEnd(s, s');
    }
  }

  lemma {:induction false} NextValid(step: LevelStep, s: Stream)
    requires Valid(s)
    ensures var (s', e) := Next(step, s);
            && Valid(s')
            && DataLeft(s') <= DataLeft(s)
            && (e.Some? ==> DataLeft(s') < DataLeft(s) ||
                            (DataLeft(s') == DataLeft(s) && TimersLeft(s') < TimersLeft(s)))
            && (e.None? <==> s'.exhausted)
    decreases |s.updates| + |s.trades|
  {
    LoopBodyValid(step, s);
    LoopBodyProgress(step, s);
    LoopBodyExhausts(step, s);
    if LoopBody(step, s).1.Continue? {
      NextValid(step, LoopBody(step, s).0);
    }
  }

  /** All events delivered by calling `next_event` until it reports that there are no more. */
  ghost function Drain(step: LevelStep, s: Stream): seq<SystemEvent>
    requires Valid(s)
    decreases DataLeft(s), if s.timer.endTime.Some? then TimersLeft(s) else 0
  {
    NextValid(step, s);
    var (s', e) := Next(step, s);
    if e.None? then [] else [e.value] + Drain(step, s')
  }

  // ---------------------------------------------------------------- one turn against the eager sort

  lemma {:induction false} LiftAtLeast<A>(s: seq<A>, f: A -> Option<Input>, t: int)
    requires forall x | x in s && f(x).Some? :: Ts(f(x).value) >= t
    ensures forall y | y in Lift(s, f) :: Ts(y) >= t
  {
    if s != [] {
      assert s[0] in s;
      LiftAtLeast(s[1..], f, t);
    }
  }

  lemma {:induction false} LiftCongruent<A>(s: seq<A>, f: A -> Option<Input>, g: A -> Option<Input>)
    requires forall x | x in s :: f(x) == g(x)
    ensures Lift(s, f) == Lift(s, g)
  {
    if s != [] {
      assert s[0] in s;
      LiftCongruent(s[1..], f, g);
    }
  }

  lemma {:induction false} GridAtLeast(next: int, interval: int, end: int, t: int)
    requires interval > 0 && next >= t
    ensures forall y | y in Grid(next, interval, end) :: Ts(y) >= t
    decreases end - next
  {
    if next <= end {
      GridAtLeast(next + interval, interval, end, t);
    }
  }

  ghost function TimersOf(s: Stream): seq<Input>
    requires s.timer.interval > 0 && s.timer.endTime.Some?
  {
    Grid(s.timer.nextTimer, s.timer.interval, s.timer.endTime.value)
  }
  ghost function TradesOf(s: Stream): seq<Input> { Lift(s.trades, KeepTrade(s.firstSnapshotTs)) }
  ghost function SpotsOf(s: Stream): seq<Input> { Lift(s.spots, KeepSpot()) }
  ghost function SnapshotsOf(s: Stream): seq<Input> { Lift(s.snapshots, KeepSnapshot()) }
  ghost function UpdatesOf(s: Stream): seq<Input> { Lift(s.updates, KeepSeeded(s.books.Keys, s.snapshots)) }

  /** Nothing in `xs` is before `t`. */
  ghost predicate After(xs: seq<Input>, t: int) {
    forall y | y in xs :: Ts(y) >= t
  }

  /** Lower bounds for what is left, stream by stream. */
  ghost predicate Bounds(s: Stream, timers: int, trades: int, spots: int, snapshots: int, updates: int)
    requires s.timer.interval > 0 && s.timer.endTime.Some?
  {
    && After(TimersOf(s), timers)
    && After(TradesOf(s), trades)
    && After(SpotsOf(s), spots)
    && After(SnapshotsOf(s), snapshots)
    && After(UpdatesOf(s), updates)
  }

  /** Taking the head `x` of one of five lists. */
  lemma {:induction false} HeadOfFirst(x: Input, a: seq<Input>, b: seq<Input>, c: seq<Input>, d: seq<Input>,
                                       e: seq<Input>)
    requires After(a, Ts(x)) && After(b, Ts(x)) && After(c, Ts(x)) && After(d, Ts(x)) && After(e, Ts(x))
    ensures Sort([x] + a + b + c + d + e, Ts) == [x] + Sort(a + b + c + d + e, Ts)
  {
    hide Sort;
    var post := a + b + c + d + e;
    assert [x] + a + b + c + d + e == [] + [x] + post;
    assert [] + post == post;
    SortHead([], x, post, Ts);
  }

  lemma {:induction false} HeadOfSecond(a: seq<Input>, x: Input, b: seq<Input>, c: seq<Input>, d: seq<Input>,
                                        e: seq<Input>)
    requires After(a, Ts(x) + 1)
    requires After(b, Ts(x)) && After(c, Ts(x)) && After(d, Ts(x)) && After(e, Ts(x))
    ensures Sort(a + ([x] + b) + c + d + e, Ts) == [x] + Sort(a + b + c + d + e, Ts)
  {
    hide Sort;
    var post := b + c + d + e;
    assert a + ([x] + b) + c + d + e == a + [x] + post;
    assert a + b + c + d + e == a + post;
    SortHead(a, x, post, Ts);
  }

  lemma {:induction false} HeadOfThird(a: seq<Input>, b: seq<Input>, x: Input, c: seq<Input>, d: seq<Input>,
                                       e: seq<Input>)
    requires After(a, Ts(x) + 1) && After(b, Ts(x) + 1)
    requires After(c, Ts(x)) && After(d, Ts(x)) && After(e, Ts(x))
    ensures Sort(a + b + ([x] + c) + d + e, Ts) == [x] + Sort(a + b + c + d + e, Ts)
  {
    hide Sort;
    var pre, post := a + b, c + d + e;
    assert a + b + ([x] + c) + d + e == pre + [x] + post;
    assert a + b + c + d + e == pre + post;
    SortHead(pre, x, post, Ts);
  }

  lemma {:induction false} HeadOfFourth(a: seq<Input>, b: seq<Input>, c: seq<Input>, x: Input, d: seq<Input>,
                                        e: seq<Input>)
    requires After(a, Ts(x) + 1) && After(b, Ts(x) + 1) && After(c, Ts(x) + 1)
    requires After(d, Ts(x)) && After(e, Ts(x))
    ensures Sort(a + b + c + ([x] + d) + e, Ts) == [x] + Sort(a + b + c + d + e, Ts)
  {
    hide Sort;
    var pre, post := a + b + c, d + e;
    assert a + b + c + ([x] + d) + e == pre + [x] + post;
    assert a + b + c + d + e == pre + post;
    SortHead(pre, x, post, Ts);
  }

  lemma {:induction false} HeadOfFifth(a: seq<Input>, b: seq<Input>, c: seq<Input>, d: seq<Input>, x: Input,
                                       e: seq<Input>)
    requires After(a, Ts(x) + 1) && After(b, Ts(x) + 1) && After(c, Ts(x) + 1) && After(d, Ts(x) + 1)
    requires After(e, Ts(x))
    ensures Sort(a + b + c + d + ([x] + e), Ts) == [x] + Sort(a + b + c + d + e, Ts)
  {
    hide Sort;
    var pre := a + b + c + d;
    assert a + b + c + d + ([x] + e) == pre + [x] + e;
    SortHead(pre, x, e, Ts);
  }

  lemma {:induction false} BoundsHold(s: Stream, timers: int, trades: int, spots: int, snapshots: int, updates: int)
    requires s.timer.interval > 0 && s.timer.endTime.Some?
    requires s.timer.nextTimer <= s.timer.endTime.value ==> s.timer.nextTimer >= timers
    requires forall x | x in s.trades :: x.ts >= trades
    requires forall x | x in s.spots :: x.ts >= spots
    requires forall x | x in s.snapshots :: x.ts >= snapshots
    requires forall x | x in s.updates :: x.ts >= updates
    ensures Bounds(s, timers, trades, spots, snapshots, updates)
  {
    if s.timer.nextTimer <= s.timer.endTime.value {
      GridAtLeast(s.timer.nextTimer, s.timer.interval, s.timer.endTime.value, timers);
    }
    LiftAtLeast(s.trades, KeepTrade(s.firstSnapshotTs), trades);
    LiftAtLeast(s.spots, KeepSpot(), spots);
    LiftAtLeast(s.snapshots, KeepSnapshot(), snapshots);
    LiftAtLeast(s.updates, KeepSeeded(s.books.Keys, s.snapshots), updates);
  }

  lemma {:induction false} HeadLeast<T>(s: seq<T>, key: T -> int, t: int)
    requires Sorted(s, key)
    requires s != [] ==> key(s[0]) >= t
    ensures forall x | x in s :: key(x) >= t
  {
  }

  /** What is left is not before the next data time. */
  lemma {:induction false} DataBounds(s: Stream)
    requires SortedStreams(s) && NextDataTs(s).Some?
    ensures var t := NextDataTs(s).value;
            && (forall x | x in s.trades :: x.ts >= t)
            && (forall x | x in s.spots :: x.ts >= t)
            && (forall x | x in s.snapshots :: x.ts >= t)
            && (forall x | x in s.updates :: x.ts >= t)
  {
    var t := NextDataTs(s).value;
    HeadLeast(s.trades, TradeTs, t);
    HeadLeast(s.spots, SpotTs, t);
    HeadLeast(s.snapshots, SnapshotTs, t);
    HeadLeast(s.updates, UpdateTs, t);
    assert forall x: Trade {:trigger TradeTs(x)} :: TradeTs(x) == x.ts;
    assert forall x: Spot {:trigger SpotTs(x)} :: SpotTs(x) == x.ts;
    assert forall x: Snapshot {:trigger SnapshotTs(x)} :: SnapshotTs(x) == x.ts;
    assert forall x: Update {:trigger UpdateTs(x)} :: UpdateTs(x) == x.ts;
  }

  lemma {:induction false} TurnTimer(s: Stream, s': Stream)
    requires SortedStreams(s) && s.timer.interval > 0 && s.timer.endTime.Some? && NextDataTs(s).Some?
    requires s.timer.ShouldEmit(NextDataTs(s).value)
    requires s' == s.(timer := s.timer.Advance(), currentTime := s.timer.nextTimer)
    ensures Sort(Eager(s), Ts) == [TimerIn(s.timer.nextTimer)] + Sort(Eager(s'), Ts)
  {
    hide Sort;
    var next := s.timer.nextTimer;
    assert Bounds(s', next, next, next, next, next) by {
      DataBounds(s);
      BoundsHold(s', next, next, next, next, next);
    }
    assert TimersOf(s) == [TimerIn(next)] + TimersOf(s');
    HeadOfFirst(TimerIn(next), TimersOf(s'), TradesOf(s'), SpotsOf(s'), SnapshotsOf(s'), UpdatesOf(s'));
  }

  /** No timer is due when market data is taken. */
  ghost predicate TimersLater(s: Stream, t: int)
    requires s.timer.endTime.Some?
  {
    s.timer.nextTimer <= s.timer.endTime.value ==> s.timer.nextTimer > t
  }

  lemma {:induction false} TurnTrade(s: Stream, s': Stream, t: int)
    requires SortedStreams(s) && s.timer.interval > 0 && s.timer.endTime.Some? && NextDataTs(s) == Some(t)
    requires TimersLater(s, t)
    requires s.trades != [] && s.trades[0].ts == t >= s.firstSnapshotTs
    requires s' == s.(trades := s.trades[1..], currentTime := t)
    ensures Sort(Eager(s), Ts) == [TradeIn(s.trades[0])] + Sort(Eager(s'), Ts)
  {
    hide Sort;
    var x := TradeIn(s.trades[0]);
    assert Bounds(s, t + 1, t, t, t, t) by {
      DataBounds(s);
      BoundsHold(s, t + 1, t, t, t, t);
    }
    assert TradesOf(s) == [x] + TradesOf(s');
    HeadOfSecond(TimersOf(s), x, TradesOf(s'), SpotsOf(s), SnapshotsOf(s), UpdatesOf(s));
  }

  lemma {:induction false} TurnSpot(s: Stream, s': Stream, t: int)
    requires SortedStreams(s) && s.timer.interval > 0 && s.timer.endTime.Some? && NextDataTs(s) == Some(t)
    requires TimersLater(s, t)
    requires s.trades == [] || s.trades[0].ts != t
    requires s.spots != [] && s.spots[0].ts == t
    requires s' == s.(spots := s.spots[1..], currentTime := t)
    ensures Sort(Eager(s), Ts) == [SpotIn(s.spots[0])] + Sort(Eager(s'), Ts)
  {
    hide Sort;
    var x := SpotIn(s.spots[0]);
    assert Bounds(s, t + 1, t + 1, t, t, t) by {
      DataBounds(s);
      HeadLeast(s.trades, TradeTs, t + 1);
      BoundsHold(s, t + 1, t + 1, t, t, t);
    }
    assert SpotsOf(s) == [x] + SpotsOf(s');
    HeadOfThird(TimersOf(s), TradesOf(s), x, SpotsOf(s'), SnapshotsOf(s), UpdatesOf(s));
  }

  /** The tracked assets and the snapshots left decide alike after a snapshot has been taken. */
  lemma {:induction false} SeedsKept(s: Stream, s': Stream)
    requires TakesSnapshot(s.snapshots, s.updates) && s'.snapshots == s.snapshots[1..] && s'.updates == s.updates
    requires s'.books.Keys == s.books.Keys + {s.snapshots[0].asset}
    requires forall u | u in s.updates :: u.ts >= s.snapshots[0].ts
    ensures UpdatesOf(s') == UpdatesOf(s)
  {
    forall u | u in s.updates
      ensures Seeded(s'.books.Keys, s'.snapshots, u) == Seeded(s.books.Keys, s.snapshots, u)
    {
      var first := s.snapshots[0];
      assert s.snapshots == [first] + s'.snapshots;
    }
    LiftCongruent(s.updates, KeepSeeded(s'.books.Keys, s'.snapshots), KeepSeeded(s.books.Keys, s.snapshots));
  }

  lemma {:induction false} TurnSnapshot(s: Stream, s': Stream, t: int)
    requires SortedStreams(s) && s.timer.interval > 0 && s.timer.endTime.Some? && NextDataTs(s) == Some(t)
    requires TimersLater(s, t)
    requires s.trades == [] || s.trades[0].ts != t
    requires s.spots == [] || s.spots[0].ts != t
    requires TakesSnapshot(s.snapshots, s.updates)
    requires s' == s.(snapshots := s.snapshots[1..], books := s.books[s.snapshots[0].asset := s.snapshots[0]],
                      currentTime := t)
    ensures s.snapshots[0].ts == t
    ensures Sort(Eager(s), Ts) == [BookIn(SnapIn(s.snapshots[0]))] + Sort(Eager(s'), Ts)
  {
    hide Sort;
    assert Bounds(s, t + 1, t + 1, t + 1, t, t) by {
      DataBounds(s);
      HeadLeast(s.trades, TradeTs, t + 1);
      HeadLeast(s.spots, SpotTs, t + 1);
      BoundsHold(s, t + 1, t + 1, t + 1, t, t);
    }
    assert UpdatesOf(s) == UpdatesOf(s') by {
      DataBounds(s);
      SeedsKept(s, s');
    }
    var x := BookIn(SnapIn(s.snapshots[0]));
    assert SnapshotsOf(s) == [x] + SnapshotsOf(s');
    HeadOfFourth(TimersOf(s), TradesOf(s), SpotsOf(s), x, SnapshotsOf(s'), UpdatesOf(s));
  }

  lemma {:induction false} TurnUpdate(s: Stream, s': Stream, t: int)
    requires SortedStreams(s) && s.timer.interval > 0 && s.timer.endTime.Some? && NextDataTs(s) == Some(t)
    requires TimersLater(s, t)
    requires s.trades == [] || s.trades[0].ts != t
    requires s.spots == [] || s.spots[0].ts != t
    requires !TakesSnapshot(s.snapshots, s.updates) && s.updates != []
    requires s'.books.Keys == s.books.Keys && s'.updates == s.updates[1..]
    requires s' == s.(updates := s'.updates, books := s'.books, currentTime := s'.currentTime)
    ensures s.updates[0].ts == t
    ensures if s.updates[0].asset in s.books
            then Sort(Eager(s), Ts) == [BookIn(UpdIn(s.updates[0]))] + Sort(Eager(s'), Ts)
            else Eager(s) == Eager(s')
  {
    hide Sort;
    assert Bounds(s, t + 1, t + 1, t + 1, t + 1, t) by {
      DataBounds(s);
      HeadLeast(s.trades, TradeTs, t + 1);
      HeadLeast(s.spots, SpotTs, t + 1);
      HeadLeast(s.snapshots, SnapshotTs, t + 1);
      BoundsHold(s, t + 1, t + 1, t + 1, t + 1, t);
    }
    if s.updates[0].asset in s.books {
      var x := BookIn(UpdIn(s.updates[0]));
      assert UpdatesOf(s) == [x] + UpdatesOf(s');
      HeadOfFifth(TimersOf(s), TradesOf(s), SpotsOf(s), SnapshotsOf(s), x, UpdatesOf(s'));
    } else {
      assert !Seeded(s.books.Keys, s.snapshots, s.updates[0]) by {
        DataBounds(s);
        HeadLeast(s.snapshots, SnapshotTs, t + 1);
      }
      assert UpdatesOf(s) == UpdatesOf(s');
    }
  }

  lemma {:induction false} NothingLeft(s: Stream)
    requires Valid(s) && NextDataTs(s).None?
    ensures Eager(s) == []
  {
  }

  lemma {:induction false} EarlyTradeIgnored(s: Stream, s': Stream)
    requires s.timer.interval > 0 && s.timer.endTime.Some?
    requires s.trades != [] && s.trades[0].ts < s.firstSnapshotTs && s' == s.(trades := s.trades[1..])
    ensures Eager(s) == Eager(s')
  {
    assert TradesOf(s) == TradesOf(s');
  }

  /** One turn with an empty queue takes the head of the eager sort, or nothing of it. */
  lemma {:induction false} TurnMatchesEager(step: LevelStep, s: Stream) returns (i: Input)
    requires Valid(s) && !s.exhausted && s.queue == []
    ensures var (s', turn) := LoopBody(step, s);
            match turn
            case Return(None) => Eager(s) == []
            case Return(Some(e)) => Sort(Eager(s), Ts) == [i] + Sort(Eager(s'), Ts) &&
                                    DeliverOne(step, s.books, i) == (s'.books, Some(e))
            case Continue => Eager(s) == Eager(s') && s'.books == s.books
  {
    hide Eager, Sort;
    i := TimerIn(0);
    var s' := LoopBody(step, s).0;
    if NextDataTs(s).None? {
      NothingLeft(s);
    } else {
      var t := NextDataTs(s).value;
      if s.timer.ShouldEmit(t) {
        TurnTimer(s, s');
        i := TimerIn(s.timer.nextTimer);
      } else if s.trades != [] && s.trades[0].ts < s.firstSnapshotTs {
        EarlyTradeIgnored(s, s');
      } else if s.trades != [] && s.trades[0].ts == t {
        TurnTrade(s, s', t);
        i := TradeIn(s.trades[0]);
      } else if s.spots != [] && s.spots[0].ts == t {
        TurnSpot(s, s', t);
        i := SpotIn(s.spots[0]);
      } else if TakesSnapshot(s.snapshots, s.updates) {
        TurnSnapshot(s, s', t);
        i := BookIn(SnapIn(s.snapshots[0]));
      } else {
        TurnUpdate(s, s', t);
        i := BookIn(UpdIn(s.updates[0]));
      }
    }
  }

  lemma {:induction false} QueueStaysEmpty(step: LevelStep, s: Stream)
    requires s.queue == []
    ensures Next(step, s).0.queue == []
    ensures Next(step, s).1.Some? ==> !Next(step, s).1.value.Queued?
    decreases |s.updates| + |s.trades|
  {
    if LoopBody(step, s).1.Continue? {
      QueueStaysEmpty(step, LoopBody(step, s).0);
    }
  }

  lemma {:induction false} NextMatchesEager(step: LevelStep, s: Stream) returns (i: Input)
    requires Valid(s) && !s.exhausted && s.queue == []
    ensures var (s', e) := Next(step, s);
            if e.None? then Eager(s) == []
            else Valid(s') && Sort(Eager(s), Ts) == [i] + Sort(Eager(s'), Ts) &&
                 DeliverOne(step, s.books, i) == (s'.books, e)
    decreases |s.updates| + |s.trades|
  {
    hide Eager, Sort;
    i := TurnMatchesEager(step, s);
    NextValid(step, s);
    LoopBodyValid(step, s);
    LoopBodyExhausts(step, s);
    if LoopBody(step, s).1.Continue? {
      i := NextMatchesEager(step, LoopBody(step, s).0);
    }
  }

  /** From any state with an empty queue, draining delivers the stable sort of what is left. */
  lemma {:induction false} DrainIsEager(step: LevelStep, s: Stream)
    requires Valid(s) && !s.exhausted && s.queue == []
    ensures Drain(step, s) == Deliver(step, s.books, Sort(Eager(s), Ts))
    ensures |Drain(step, s)| == |Eager(s)|
    decreases DataLeft(s), TimersLeft(s)
  {
    var i := NextMatchesEager(step, s);
    var (s', e) := Next(step, s);
    NextValid(step, s);
    QueueStaysEmpty(step, s);
    SortLength(Eager(s), Ts);
    if e.Some? {
      DrainIsEager(step, s');
      SortLength(Eager(s'), Ts);
    }
  }

  // ---------------------------------------------------------------- from the data given to the constructor

  lemma {:induction false} LiftConcat<A>(a: seq<A>, b: seq<A>, f: A -> Option<Input>)
    ensures Lift(a + b, f) == Lift(a, f) + Lift(b, f)
  {
    if a == [] {
      assert a + b == b;
    } else {
      assert (a + b)[0] == a[0] && (a + b)[1..] == a[1..] + b;
      LiftConcat(a[1..], b, f);
      var head := if f(a[0]).Some? then [f(a[0]).value] else [];
      assert head + (Lift(a[1..], f) + Lift(b, f)) == head + Lift(a[1..], f) + Lift(b, f);
    }
  }

  /** Lifting commutes with taking buckets, so it maps equal buckets to equal buckets. */
  lemma {:induction false} LiftBucket<A>(s: seq<A>, f: A -> Option<Input>, key: A -> int, k: int)
    requires forall x :: f(x).Some? ==> Ts(f(x).value) == key(x)
    ensures Bucket(Lift(s, f), Ts, k) == Lift(Bucket(s, key, k), f)
  {
    if s != [] {
      var head := if f(s[0]).Some? then [f(s[0]).value] else [];
      BucketConcat(head, Lift(s[1..], f), Ts, k);
      LiftBucket(s[1..], f, key, k);
      LiftConcat(if key(s[0]) == k then [s[0]] else [], Bucket(s[1..], key, k), f);
    }
  }

  lemma {:induction false} LiftSort<A>(s: seq<A>, f: A -> Option<Input>, key: A -> int)
    requires forall x :: f(x).Some? ==> Ts(f(x).value) == key(x)
    ensures SameBuckets(Lift(Sort(s, key), f), Lift(s, f), Ts)
  {
    SortCorrect(s, key);
    forall k ensures Bucket(Lift(Sort(s, key), f), Ts, k) == Bucket(Lift(s, f), Ts, k) {
      LiftBucket(Sort(s, key), f, key, k);
      LiftBucket(s, f, key, k);
    }
  }

  /** All inputs of a backtest as given, kind by kind, from `start` to `end`. */
  ghost function AllInputs(snapshots: seq<Snapshot>, updates: seq<Update>, trades: seq<Trade>,
                           spots: Option<seq<Spot>>, interval: int, start: int, end: int): seq<Input>
    requires interval > 0
  {
    Grid(start, interval, end)
    + Lift(trades, KeepTrade(start))
    + Lift(if spots.Some? then spots.value else [], KeepSpot())
    + Lift(snapshots, KeepSnapshot())
    + Lift(updates, KeepSeeded({}, snapshots))
  }

  /** `start` is the least snapshot time, `end` the greatest time of a snapshot or update. */
  ghost predicate Span(snapshots: seq<Snapshot>, updates: seq<Update>, start: int, end: int) {
    && (exists s | s in snapshots :: s.ts == start)
    && (forall s | s in snapshots :: start <= s.ts <= end)
    && (forall u | u in updates :: u.ts <= end)
    && ((exists s | s in snapshots :: s.ts == end) || (exists u | u in updates :: u.ts == end))
  }

  lemma {:induction false} InitSpan(snapshots: seq<Snapshot>, updates: seq<Update>, trades: seq<Trade>,
                 spots: Option<seq<Spot>>, interval: int)
    requires snapshots != []
    ensures var t := Init(snapshots, updates, trades, spots, interval).timer;
            t.endTime.Some? && Span(snapshots, updates, t.nextTimer, t.endTime.value)
  {
    hide Sort;
    var s := Init(snapshots, updates, trades, spots, interval);
    SortEnds(snapshots, SnapshotTs);
    var (first, last) := (s.snapshots[0], s.snapshots[|s.snapshots| - 1]);
    assert first in snapshots && last in snapshots;
    forall x | x in snapshots ensures first.ts <= x.ts <= last.ts {
      assert SnapshotTs(first) <= SnapshotTs(x) <= SnapshotTs(last);
    }
    if updates == [] {
      SortLength(updates, UpdateTs);
    } else {
      SortEnds(updates, UpdateTs);
      var lastUpdate := s.updates[|s.updates| - 1];
      assert lastUpdate in updates;
      forall u | u in updates ensures u.ts <= lastUpdate.ts {
        assert UpdateTs(u) <= UpdateTs(lastUpdate);
      }
    }
  }

  lemma {:induction false} InitValid(snapshots: seq<Snapshot>, updates: seq<Update>, trades: seq<Trade>,
                  spots: Option<seq<Spot>>, interval: int)
    requires snapshots != [] && interval > 0
    ensures Valid(Init(snapshots, updates, trades, spots, interval))
  {
    SortCorrect(snapshots, SnapshotTs);
    SortCorrect(updates, UpdateTs);
    SortCorrect(trades, TradeTs);
    if spots.Some? { SortCorrect(spots.value, SpotTs); }
  }

  /** Main result: for every tracker and all data with a snapshot, draining the coordinator
      delivers the stable sort, by time and then by kind (timer, trade, spot price, snapshot,
      update), of the timer grid, the trades not before the first snapshot, all spot prices,
      all snapshots and exactly the seeded updates, and nothing is lost on the way. */
  lemma {:induction false} DeliversStableSort(step: LevelStep, snapshots: seq<Snapshot>, updates: seq<Update>,
                           trades: seq<Trade>, spots: Option<seq<Spot>>, interval: int)
    requires snapshots != [] && interval > 0
    ensures var s := Init(snapshots, updates, trades, spots, interval);
            && Valid(s)
            && var all := AllInputs(snapshots, updates, trades, spots, interval,
                                    s.timer.nextTimer, s.timer.endTime.value);
            && Span(snapshots, updates, s.timer.nextTimer, s.timer.endTime.value)
            && Drain(step, s) == Deliver(step, map[], Sort(all, Ts))
            && |Drain(step, s)| == |all|
  {
    var s := Init(snapshots, updates, trades, spots, interval);
    InitValid(snapshots, updates, trades, spots, interval);
    InitSpan(snapshots, updates, trades, spots, interval);
    var all := AllInputs(snapshots, updates, trades, spots, interval, s.timer.nextTimer, s.timer.endTime.value);
    DrainIsEager(step, s);
    InitBuckets(snapshots, updates, trades, spots, interval);
    SortSameBuckets(Eager(s), all, Ts);
    SortLength(Eager(s), Ts);
    SortLength(all, Ts);
  }

  lemma {:induction false} InitBuckets(snapshots: seq<Snapshot>, updates: seq<Update>, trades: seq<Trade>,
                    spots: Option<seq<Spot>>, interval: int)
    requires snapshots != [] && interval > 0
    ensures var s := Init(snapshots, updates, trades, spots, interval);
            SameBuckets(Eager(s), AllInputs(snapshots, updates, trades, spots, interval,
                                            s.timer.nextTimer, s.timer.endTime.value), Ts)
  {
    var s := Init(snapshots, updates, trades, spots, interval);
    var start := s.timer.nextTimer;
    var grid := TimersOf(s);
    LiftSort(trades, KeepTrade(start), TradeTs);
    LiftSort(snapshots, KeepSnapshot(), SnapshotTs);
    var given := if spots.Some? then spots.value else [];
    LiftSort(given, KeepSpot(), SpotTs);
    LiftSort(updates, KeepSeeded({}, snapshots), UpdateTs);
    SortMembers(snapshots, SnapshotTs);
    forall u | u in s.updates ensures Seeded({}, s.snapshots, u) == Seeded({}, snapshots, u) {}
    LiftCongruent(s.updates, KeepSeeded({}, s.snapshots), KeepSeeded({}, snapshots));
    assert s.books.Keys == {};
    SameBucketsConcat(grid, grid, TradesOf(s), Lift(trades, KeepTrade(start)), Ts);
    SameBucketsConcat(grid + TradesOf(s), grid + Lift(trades, KeepTrade(start)), SpotsOf(s), Lift(given, KeepSpot()),
                      Ts);
    SameBucketsConcat(grid + TradesOf(s) + SpotsOf(s), grid + Lift(trades, KeepTrade(start)) + Lift(given, KeepSpot()),
                      SnapshotsOf(s), Lift(snapshots, KeepSnapshot()), Ts);
    SameBucketsConcat(grid + TradesOf(s) + SpotsOf(s) + SnapshotsOf(s),
                      grid + Lift(trades, KeepTrade(start)) + Lift(given, KeepSpot()) + Lift(snapshots, KeepSnapshot()),
                      UpdatesOf(s), Lift(updates, KeepSeeded({}, snapshots)), Ts);
  }

  // ---------------------------------------------------------------- consequences for the caller

  /** If no input is swallowed, every event carries the time of its input. */
  lemma {:induction false} DeliverTimes(step: LevelStep, books: Books, inputs: seq<Input>)
    ensures |Deliver(step, books, inputs)| <= |inputs|
    ensures forall e | e in Deliver(step, books, inputs) :: !e.Queued?
    ensures |Deliver(step, books, inputs)| == |inputs| ==>
              forall i | 0 <= i < |inputs| :: EventTs(Deliver(step, books, inputs)[i]) == Ts(inputs[i])
    decreases |inputs|
  {
    if inputs != [] {
      DeliverTimes(step, DeliverOne(step, books, inputs[0]).0, inputs[1..]);
    }
  }

  /** The times of the delivered events never go back. */
  lemma {:induction false} TimesNeverGoBack(step: LevelStep, snapshots: seq<Snapshot>, updates: seq<Update>,
                         trades: seq<Trade>, spots: Option<seq<Spot>>, interval: int)
    requires snapshots != [] && interval > 0
    ensures var s := Init(snapshots, updates, trades, spots, interval);
            && Valid(s)
            && var out := Drain(step, s);
            && (forall e | e in out :: !e.Queued?)
            && forall i, j | 0 <= i < j < |out| :: EventTs(out[i]) <= EventTs(out[j])
  {
    hide Drain, Deliver, Sort, AllInputs, Valid;
    DeliversStableSort(step, snapshots, updates, trades, spots, interval);
    var s := Init(snapshots, updates, trades, spots, interval);
    var all := AllInputs(snapshots, updates, trades, spots, interval, s.timer.nextTimer, s.timer.endTime.value);
    SortCorrect(all, Ts);
    SortLength(all, Ts);
    DeliverTimes(step, map[], Sort(all, Ts));
  }

  /** The timers among delivered events, in order. */
  ghost function TimersIn(events: seq<SystemEvent>): seq<int> {
    if events == [] then []
    else (if events[0].Timer? then [events[0].ts] else []) + TimersIn(events[1..])
  }

  lemma {:induction false} TurnTimers(step: LevelStep, s: Stream)
    requires Valid(s) && !s.exhausted && s.queue == []
    ensures var (s', turn) := LoopBody(step, s);
            if turn.Return? && turn.event.Some? && turn.event.value.Timer?
            then s.timer.nextTimer <= s.timer.endTime.value && turn.event == Some(Timer(s.timer.nextTimer))
                 && s'.timer == s.timer.Advance()
            else s'.timer == s.timer && (turn == Return(None) ==> s.timer.nextTimer > s.timer.endTime.value)
  {
  }

  lemma {:induction false} NextTimers(step: LevelStep, s: Stream)
    requires Valid(s) && !s.exhausted && s.queue == []
    ensures var (s', e) := Next(step, s);
            if e.Some? && e.value.Timer?
            then s.timer.nextTimer <= s.timer.endTime.value && e == Some(Timer(s.timer.nextTimer))
                 && s'.timer == s.timer.Advance()
            else s'.timer == s.timer && (e.None? ==> s.timer.nextTimer > s.timer.endTime.value)
    decreases |s.updates| + |s.trades|
  {
    TurnTimers(step, s);
    LoopBodyValid(step, s);
    LoopBodyExhausts(step, s);
    if LoopBody(step, s).1.Continue? {
      NextTimers(step, LoopBody(step, s).0);
    }
  }

  /** The number of grid points from `next` to `end`. */
  ghost function GridCount(next: int, interval: int, end: int): nat
    requires interval > 0
  {
    if next > end then 0 else (end - next) / interval + 1
  }

  lemma {:induction false} DrainTimers(step: LevelStep, s: Stream)
    requires Valid(s) && !s.exhausted && s.queue == []
    ensures var out := TimersIn(Drain(step, s));
            && |out| == GridCount(s.timer.nextTimer, s.timer.interval, s.timer.endTime.value)
            && forall k | 0 <= k < |out| :: out[k] == s.timer.nextTimer + k * s.timer.interval
    decreases DataLeft(s), TimersLeft(s)
  {
    hide Next;
    var (s', e) := Next(step, s);
    NextValid(step, s);
    NextTimers(step, s);
    QueueStaysEmpty(step, s);
    if e.Some? {
      DrainTimers(step, s');
      var out, rest := TimersIn(Drain(step, s)), TimersIn(Drain(step, s'));
      assert Drain(step, s)[1..] == Drain(step, s');
      if e.value.Timer? {
        GridStep(s.timer.nextTimer, s.timer.interval, s.timer.endTime.value);
        ArithmeticCons(s.timer.nextTimer, s.timer.interval, rest);
        assert out == [s.timer.nextTimer] + rest;
      } else {
        assert out == rest;
      }
    }
  }

  lemma {:induction false} ArithmeticCons(next: int, interval: int, rest: seq<int>)
    requires forall k | 0 <= k < |rest| :: rest[k] == next + interval + k * interval
    ensures var out := [next] + rest; forall k | 0 <= k < |out| :: out[k] == next + k * interval
  {
    var out := [next] + rest;
    forall k | 0 <= k < |out| ensures out[k] == next + k * interval {
      if k > 0 {
        assert out[k] == rest[k - 1];
        assert interval + (k - 1) * interval == k * interval;
      }
    }
  }

  lemma {:induction false} GridStep(next: int, interval: int, end: int)
    requires interval > 0 && next <= end
    ensures GridCount(next, interval, end) == GridCount(next + interval, interval, end) + 1
  {
    DivAddMultiple(end - next - interval, interval, 1);
    if end - next < interval {
      DivUnique(end - next, interval, 0, end - next);
    }
  }

  /** Exactly floor((end - start) / interval) + 1 timers are delivered, at start + k * interval. */
  lemma {:induction false} TimerGrid(step: LevelStep, snapshots: seq<Snapshot>, updates: seq<Update>,
                  trades: seq<Trade>, spots: Option<seq<Spot>>, interval: int)
    requires snapshots != [] && interval > 0
    ensures var s := Init(snapshots, updates, trades, spots, interval);
            && Valid(s)
            && var start, end := s.timer.nextTimer, s.timer.endTime.value;
            && Span(snapshots, updates, start, end)
            && var out := TimersIn(Drain(step, s));
            && |out| == (end - start) / interval + 1
            && forall k | 0 <= k < |out| :: out[k] == start + k * interval
  {
    hide Drain, TimersIn, Sort, Valid;
    InitValid(snapshots, updates, trades, spots, interval);
    InitSpan(snapshots, updates, trades, spots, interval);
    DrainTimers(step, Init(snapshots, updates, trades, spots, interval));
  }

  /** The clock: every market event and timer sets it to its own time, and nothing else moves it. */
  predicate ClockFollows(before: int, after: int, e: Option<SystemEvent>) {
    after == if e.Some? && !e.value.Queued? then EventTs(e.value) else before
  }

  lemma {:induction false} TurnClock(step: LevelStep, s: Stream)
    requires SortedStreams(s)
    ensures var (s', turn) := LoopBody(step, s);
            ClockFollows(s.currentTime, s'.currentTime, if turn.Return? then turn.event else None)
  {
  }

  lemma {:induction false} NextClock(step: LevelStep, s: Stream)
    requires SortedStreams(s)
    ensures ClockFollows(s.currentTime, Next(step, s).0.currentTime, Next(step, s).1)
    decreases |s.updates| + |s.trades|
  {
    TurnClock(step, s);
    if LoopBody(step, s).1.Continue? {
      hide LoopBody;
      LoopBodySorted(step, s);
      NextClock(step, LoopBody(step, s).0);
    }
  }
}
