/** The streaming backtest coordinator: a lazy five-way merge of timers, trades, spot prices,
    snapshots and updates, with a queue of events enqueued by the caller in front of it. */
module Coordinator {
  import opened Options
  import opened MarketData
  import opened StableSort

  datatype SystemEvent =
    | Queued(id: nat)
    | Timer(ts: int)
    | TradeEvent(trade: Trade)
    | SpotEvent(spot: Spot)
    | BookEvent(book: Snapshot)

  datatype TimerState = TimerState(interval: int, nextTimer: int, endTime: Option<int>) {
    predicate ShouldEmit(current: int) {
      (endTime.Some? ==> nextTimer <= endTime.value) && nextTimer <= current
    }

    function Advance(): TimerState {
      this.(nextTimer := nextTimer + interval)
    }
  }

  /** The state of the streaming coordinator as a value; the streams hold what is left. */
  datatype Stream = Stream(
    snapshots: seq<Snapshot>, updates: seq<Update>, trades: seq<Trade>, spots: seq<Spot>,
    books: Books, queue: seq<nat>, timer: TimerState,
    currentTime: int, firstSnapshotTs: int, exhausted: bool)

  function Earlier(a: Option<int>, b: Option<int>): Option<int> {
    match (a, b)
    case (Some(x), Some(y)) => Some(if x <= y then x else y)
    case (None, _) => b
    case (_, None) => a
  }

  function HeadTs<T>(s: seq<T>, key: T -> int): Option<int> {
    if s == [] then None else Some(key(s[0]))
  }

  function NextBookTs(s: Stream): Option<int> {
    Earlier(HeadTs(s.snapshots, SnapshotTs), HeadTs(s.updates, UpdateTs))
  }

  function NextDataTs(s: Stream): Option<int> {
    Earlier(Earlier(NextBookTs(s), HeadTs(s.trades, TradeTs)), HeadTs(s.spots, SpotTs))
  }

  /** What one turn of the loop of `next_event` does: return to the caller, or go round again. */
  datatype Turn = Return(event: Option<SystemEvent>) | Continue

  function LoopBody(step: LevelStep, s: Stream): (r: (Stream, Turn))
    ensures r.1.Continue? ==> |r.0.updates| + |r.0.trades| < |s.updates| + |s.trades|
  {
    if s.exhausted then (s, Return(None))
    else if s.queue != [] then (s.(queue := s.queue[1..]), Return(Some(Queued(s.queue[0]))))
    else match NextDataTs(s)
      case None => (s.(exhausted := true), Return(None))
      case Some(t) =>
        if s.timer.ShouldEmit(t) then
          (s.(timer := s.timer.Advance(), currentTime := s.timer.nextTimer), Return(Some(Timer(s.timer.nextTimer))))
        else if s.trades != [] && s.trades[0].ts < s.firstSnapshotTs then
          (s.(trades := s.trades[1..]), Continue)
        else if s.trades != [] && s.trades[0].ts == t then
          (s.(trades := s.trades[1..], currentTime := t), Return(Some(TradeEvent(s.trades[0]))))
        else if s.spots != [] && s.spots[0].ts == t then
          (s.(spots := s.spots[1..], currentTime := t), Return(Some(SpotEvent(s.spots[0]))))
        else if TakesSnapshot(s.snapshots, s.updates) then
          Yield(s.(snapshots := s.snapshots[1..]), Track(step, s.books, SnapIn(s.snapshots[0])))
        else
          Yield(s.(updates := s.updates[1..]), Track(step, s.books, UpdIn(s.updates[0])))
  }

  /** The end of a turn that fed the tracker: a book is returned, no book means another turn. */
  function Yield(s: Stream, tracked: (Books, Option<Snapshot>)): (Stream, Turn) {
    match tracked.1
    case None => (s.(books := tracked.0), Continue)
    case Some(book) => (s.(books := tracked.0, currentTime := book.ts), Return(Some(BookEvent(book))))
  }

  /** One call of `next_event`: the new state and the event, or None for `NoMoreEvents`. */
  function Next(step: LevelStep, s: Stream): (Stream, Option<SystemEvent>)
    decreases |s.updates| + |s.trades|
  {
    var (s', turn) := LoopBody(step, s);
    match turn
    case Return(e) => (s', e)
    case Continue => Next(step, s')
  }

  /** The state `new_from_data` builds from unsorted data with at least one snapshot. */
  function Init(snapshots: seq<Snapshot>, updates: seq<Update>, trades: seq<Trade>,
                spots: Option<seq<Spot>>, interval: int): Stream
    requires snapshots != []
  {
    var sn := Sort(snapshots, SnapshotTs);
    var up := Sort(updates, UpdateTs);
    SortMembers(snapshots, SnapshotTs);
    assert snapshots[0] in sn;
    var last := sn[|sn| - 1].ts;
    var lastUpdate := if up == [] then last else up[|up| - 1].ts;
    var end := if last >= lastUpdate then last else lastUpdate;
    Stream(sn, up, Sort(trades, TradeTs),
           if spots.Some? then Sort(spots.value, SpotTs) else [],
           map[], [], TimerState(interval, sn[0].ts, Some(end)), sn[0].ts, sn[0].ts, false)
  }

  class StreamingCoordinator {
    var snapshots: seq<Snapshot>
    var updates: seq<Update>
    var trades: seq<Trade>
    var spots: seq<Spot>
    const tracker: OrderbookTracker
    var enqueued: seq<nat>
    var timer: TimerState
    var currentTime: int
    var firstSnapshotTs: int
    var exhausted: bool

    ghost function State(): Stream
      reads this, tracker
    {
      Stream(snapshots, updates, trades, spots, tracker.books, enqueued, timer,
             currentTime, firstSnapshotTs, exhausted)
    }

    constructor NewFromData(snapshots: seq<Snapshot>, updates: seq<Update>, trades: seq<Trade>,
                            spots: Option<seq<Spot>>, interval: int, step: LevelStep)
      requires snapshots != []
      ensures fresh(tracker) && tracker.step == step
      ensures State() == Init(snapshots, updates, trades, spots, interval)
    {
      var sn := Sort(snapshots, SnapshotTs);
      var up := Sort(updates, UpdateTs);
      SortMembers(snapshots, SnapshotTs);
      assert snapshots[0] in sn;
      var endTime := sn[|sn| - 1].ts;
      if up != [] && up[|up| - 1].ts > endTime {
        endTime := up[|up| - 1].ts;
      }
      this.snapshots, this.updates := sn, up;
      this.trades := Sort(trades, TradeTs);
      this.spots := if spots.Some? then Sort(spots.value, SpotTs) else [];
      tracker := new OrderbookTracker(step);
      enqueued := [];
      timer := TimerState(interval, sn[0].ts, Some(endTime));
      currentTime, firstSnapshotTs, exhausted := sn[0].ts, sn[0].ts, false;
    }

    method EnqueueEvent(id: nat)
      modifies this
      ensures State() == old(State()).(queue := old(enqueued) + [id])
    {
      enqueued := enqueued + [id];
    }

    method PopNextOrderbookInput() returns (input: Option<BookInput>)
      modifies this`snapshots, this`updates
      ensures input.None? <==> old(NextBookTs(State())).None?
      ensures input.Some? ==> Some(InputTs(input.value)) == old(NextBookTs(State()))
      ensures input.Some? && input.value.SnapIn? ==>
                old(TakesSnapshot(snapshots, updates)) && input.value.snapshot == old(snapshots)[0]
      ensures input.Some? && input.value.UpdIn? ==>
                !old(TakesSnapshot(snapshots, updates)) && old(updates) != [] && input.value.update == old(updates)[0]
      ensures State() == match input
                         case None => old(State())
                         case Some(SnapIn(s)) => old(State()).(snapshots := old(snapshots)[1..])
                         case Some(UpdIn(u)) => old(State()).(updates := old(updates)[1..])
    {
      if snapshots != [] && updates != [] && snapshots[0].ts <= updates[0].ts {
        input := Some(SnapIn(snapshots[0]));
        snapshots := snapshots[1..];
      } else if snapshots != [] && updates != [] {
        input := Some(UpdIn(updates[0]));
        updates := updates[1..];
      } else if snapshots != [] {
        input := Some(SnapIn(snapshots[0]));
        snapshots := snapshots[1..];
      } else if updates != [] {
        input := Some(UpdIn(updates[0]));
        updates := updates[1..];
      } else {
        input := None;
      }
    }

    /** One turn of the loop. */
    method TakeTurn() returns (turn: Turn)
      modifies this, tracker
      ensures (State(), turn) == LoopBody(tracker.step, old(State()))
    {
      if exhausted {
        return Return(None);
      }
      if enqueued != [] {
        turn := Return(Some(Queued(enqueued[0])));
        enqueued := enqueued[1..];
        return;
      }
      var nextData := NextDataTs(Stream(snapshots, updates, trades, spots, tracker.books, enqueued, timer,
                                        currentTime, firstSnapshotTs, exhausted));
      if nextData.None? {
        exhausted := true;
        return Return(None);
      }
      var t := nextData.value;
      if timer.ShouldEmit(t) {
        currentTime := timer.nextTimer;
        timer := timer.Advance();
        return Return(Some(Timer(currentTime)));
      }
      if trades != [] && trades[0].ts < firstSnapshotTs {
        trades := trades[1..];
        return Continue;
      }
      if trades != [] && trades[0].ts == t {
        var trade := trades[0];
        trades := trades[1..];
        currentTime := trade.ts;
        return Return(Some(TradeEvent(trade)));
      }
      if spots != [] && spots[0].ts == t {
        var spot := spots[0];
        spots := spots[1..];
        currentTime := spot.ts;
        return Return(Some(SpotEvent(spot)));
      }
      var input := PopNextOrderbookInput();
      // there is data at t, so the source's empty case is not reached
      match input.value {
        case SnapIn(s) =>
          var book := tracker.ApplySnapshot(s);
          currentTime := book.ts;
          return Return(Some(BookEvent(book)));
        case UpdIn(u) =>
          var book := tracker.ApplyUpdate(u);
          if book.None? {
            return Continue;
          }
          currentTime := book.value.ts;
          return Return(Some(BookEvent(book.value)));
      }
    }

    method NextEvent() returns (r: Option<SystemEvent>)
      modifies this, tracker
      ensures (State(), r) == Next(tracker.step, old(State()))
    {
      hide LoopBody;
      while true
        invariant Next(tracker.step, State()) == Next(tracker.step, old(State()))
        decreases |updates| + |trades|
      {
        var turn := TakeTurn();
        if turn.Return? {
          return turn.event;
        }
      }
    }
  }
}
