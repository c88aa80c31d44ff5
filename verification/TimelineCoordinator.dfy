/** The timeline mode of the backtest coordinator: tick by tick, trades, then spot prices, then the
    snapshot, then timers up to the next tick. */
module TimelineCoordinator {
  import opened Collections
  import opened Options
  import opened Timeline
  import opened Coordinator

  /** The state as a value; `next` is the position of the timeline. */
  datatype Tour = Tour(
    ticks: seq<Tick>, next: nat, current: Option<Tick>, snapshotDelivered: bool,
    tradeIndex: nat, spotIndex: nat, queue: seq<nat>, timer: TimerState, currentTime: int, exhausted: bool)

  /** Where the timers of the current tick stop: at the next tick, or a second after the last. */
  function TickEnd(s: Tour): int
    requires s.current.Some?
  {
    if s.next < |s.ticks| then s.ticks[s.next].snapshot.ts else s.current.value.snapshot.ts + 1000
  }

  /** The timers passed over and the one delivered, if any, before `end`. */
  function ScanTimers(timer: TimerState, now: int, end: int): (TimerState, Option<int>)
    requires timer.interval > 0
    decreases end - timer.nextTimer
  {
    if !timer.ShouldEmit(end) then (timer, None)
    else if timer.nextTimer > now && timer.nextTimer < end then (timer.Advance(), Some(timer.nextTimer))
    else if timer.nextTimer >= end then (timer.Advance(), None)
    else ScanTimers(timer.Advance(), now, end)
  }

  /** One turn of the loop of `next_event` in timeline mode. */
  function TourTurn(s: Tour): (Tour, Turn)
    requires s.timer.interval > 0
  {
    if s.exhausted then (s, Return(None))
    else if s.queue != [] then (s.(queue := s.queue[1..]), Return(Some(Queued(s.queue[0]))))
    else if s.current.None? then (s.(exhausted := true), Return(None))
    else
      var tick := s.current.value;
      if s.tradeIndex < |tick.trades| then
        var t := tick.trades[s.tradeIndex];
        (s.(tradeIndex := s.tradeIndex + 1, currentTime := t.ts), Return(Some(TradeEvent(t))))
      else if s.spotIndex < |tick.spots| then
        var p := tick.spots[s.spotIndex];
        (s.(spotIndex := s.spotIndex + 1, currentTime := p.ts), Return(Some(SpotEvent(p))))
      else if !s.snapshotDelivered then
        (s.(snapshotDelivered := true, currentTime := tick.snapshot.ts), Return(Some(BookEvent(tick.snapshot))))
      else
        var (timer, due) := ScanTimers(s.timer, s.currentTime, TickEnd(s));
        if due.Some? then (s.(timer := timer, currentTime := due.value), Return(Some(Timer(due.value))))
        else if s.next < |s.ticks| then
          (s.(timer := timer, current := Some(s.ticks[s.next]), next := s.next + 1,
              snapshotDelivered := false, tradeIndex := 0, spotIndex := 0), Continue)
        else
          (s.(timer := timer, current := None, snapshotDelivered := false, tradeIndex := 0, spotIndex := 0,
              exhausted := true), Return(None))
  }

  function TicksLeft(s: Tour): nat {
    (if s.next < |s.ticks| then |s.ticks| - s.next else 0) + if s.current.Some? then 1 else 0
  }

  lemma {:induction false} ScanKeepsConfig(timer: TimerState, now: int, end: int)
    requires timer.interval > 0
    ensures var (timer', due) := ScanTimers(timer, now, end);
            && timer'.interval == timer.interval && timer'.endTime == timer.endTime
            && timer.nextTimer <= timer'.nextTimer
            && (due.Some? ==> timer.nextTimer < timer'.nextTimer
                              && timer.ShouldEmit(timer.nextTimer))
    decreases end - timer.nextTimer
  {
    if timer.ShouldEmit(end) && timer.nextTimer <= now && timer.nextTimer < end {
      ScanKeepsConfig(timer.Advance(), now, end);
    }
  }

  /** A turn keeps the timer's interval, and one that goes round again has used up a tick. */
  lemma {:induction false} TurnKeepsInterval(s: Tour)
    requires s.timer.interval > 0
    ensures var (s', turn) := TourTurn(s);
            s'.timer.interval == s.timer.interval && (turn.Continue? ==> TicksLeft(s') < TicksLeft(s))
  {
    if s.current.Some? { ScanKeepsConfig(s.timer, s.currentTime, TickEnd(s)); }
  }

  function TourNext(s: Tour): (Tour, Option<SystemEvent>)
    requires s.timer.interval > 0
    decreases TicksLeft(s)
  {
    var (s', turn) := TourTurn(s);
    match turn
    case Return(e) => (s', e)
    case Continue =>
      ScanKeepsConfig(s.timer, s.currentTime, TickEnd(s));
      TourNext(s')
  }

  function InitTour(ticks: seq<Tick>, interval: int): Tour
    requires ticks != []
  {
    var start, end := ticks[0].snapshot.ts, ticks[|ticks| - 1].snapshot.ts;
    Tour(ticks, 1, Some(ticks[0]), false, 0, 0, [], TimerState(interval, start, Some(end)), start, false)
  }

  class TimelineCoordinator {
    const timeline: BacktestTimeline
    var currentTick: Option<Tick>
    var snapshotDelivered: bool
    var tradeIndex: nat
    var spotIndex: nat
    var enqueued: seq<nat>
    var timer: TimerState
    var currentTime: int
    var exhausted: bool

    ghost function State(): Tour
      reads this, timeline
    {
      Tour(timeline.ticks, timeline.currentIndex, currentTick, snapshotDelivered, tradeIndex, spotIndex,
           enqueued, timer, currentTime, exhausted)
    }

    constructor (timeline: BacktestTimeline, interval: int)
      requires timeline.ticks != [] && timeline.currentIndex == 0
      modifies timeline
      ensures this.timeline == timeline
      ensures State() == InitTour(timeline.ticks, interval)
    {
      this.timeline := timeline;
      var start, end := timeline.ticks[0].snapshot.ts, timeline.ticks[|timeline.ticks| - 1].snapshot.ts;
      snapshotDelivered, tradeIndex, spotIndex := false, 0, 0;
      enqueued := [];
      timer := TimerState(interval, start, Some(end));
      currentTime, exhausted := start, false;
      var first := timeline.NextTick();
      currentTick := first;
    }

    method EnqueueEvent(id: nat)
      modifies this
      ensures State() == old(State()).(queue := old(enqueued) + [id])
    {
      enqueued := enqueued + [id];
    }

    /** The timers between the current tick and the next one. */
    method EmitTimer(end: int) returns (due: Option<int>)
      requires timer.interval > 0
      modifies this`timer
      ensures (timer, due) == ScanTimers(old(timer), currentTime, end)
    {
      while timer.ShouldEmit(end)
        invariant timer.interval == old(timer).interval
        invariant ScanTimers(timer, currentTime, end) == ScanTimers(old(timer), currentTime, end)
        decreases end - timer.nextTimer
      {
        var ts := timer.nextTimer;
        timer := timer.Advance();
        if ts > currentTime && ts < end {
          return Some(ts);
        }
        if ts >= end {
          return None;
        }
      }
      due := None;
    }

    /** One turn of the loop. */
    method TakeTurn() returns (turn: Turn)
      requires timer.interval > 0
      modifies this, timeline
      ensures (State(), turn) == TourTurn(old(State()))
    {
      if exhausted {
        return Return(None);
      }
      if enqueued != [] {
        turn := Return(Some(Queued(enqueued[0])));
        enqueued := enqueued[1..];
        return;
      }
      if currentTick.None? {
        exhausted := true;
        return Return(None);
      }
      var tick := currentTick.value;
      if tradeIndex < |tick.trades| {
        var trade := tick.trades[tradeIndex];
        tradeIndex := tradeIndex + 1;
        currentTime := trade.ts;
        return Return(Some(TradeEvent(trade)));
      }
      if spotIndex < |tick.spots| {
        var spot := tick.spots[spotIndex];
        spotIndex := spotIndex + 1;
        currentTime := spot.ts;
        return Return(Some(SpotEvent(spot)));
      }
      if !snapshotDelivered {
        currentTime := tick.snapshot.ts;
        snapshotDelivered := true;
        return Return(Some(BookEvent(tick.snapshot)));
      }
      var upcoming := timeline.Peek();
      var end := if upcoming.Some? then upcoming.value.snapshot.ts else tick.snapshot.ts + 1000;
      ScanKeepsConfig(timer, currentTime, end);
      hide ScanTimers;
      var due := EmitTimer(end);
      if due.Some? {
        currentTime := due.value;
        return Return(Some(Timer(due.value)));
      }
      currentTick := timeline.NextTick();
      snapshotDelivered, tradeIndex, spotIndex := false, 0, 0;
      if currentTick.Some? {
        return Continue;
      }
      exhausted := true;
      return Return(None);
    }

    method NextEvent() returns (r: Option<SystemEvent>)
      requires timer.interval > 0
      modifies this, timeline
      ensures (State(), r) == TourNext(old(State()))
    {
      hide TourTurn;
      while true
        invariant timer.interval > 0
        invariant TourNext(State()) == TourNext(old(State()))
        decreases TicksLeft(State())
      {
        TurnKeepsInterval(State());
        var turn := TakeTurn();
        if turn.Return? {
          return turn.event;
        }
      }
    }
  }

  // ---------------------------------------------------------------- whole runs

  /** One tick as the caller sees it. */
  function TickEvents(t: Tick, trades: nat, spots: nat, snapshotDelivered: bool): seq<SystemEvent>
    requires trades <= |t.trades| && spots <= |t.spots|
  {
    seq(|t.trades| - trades, i requires 0 <= i < |t.trades| - trades => TradeEvent(t.trades[trades + i]))
    + seq(|t.spots| - spots, i requires 0 <= i < |t.spots| - spots => SpotEvent(t.spots[spots + i]))
    + if snapshotDelivered then [] else [BookEvent(t.snapshot)]
  }

  /** Every tick's trades, then its spot prices, then its snapshot. */
  function AllTickEvents(ticks: seq<Tick>): seq<SystemEvent> {
    if ticks == [] then [] else TickEvents(ticks[0], 0, 0, false) + AllTickEvents(ticks[1..])
  }

  ghost predicate Valid(s: Tour) {
    && s.timer.interval > 0 && s.timer.endTime.Some? && s.next <= |s.ticks|
    && (s.current.Some? ==> s.tradeIndex <= |s.current.value.trades| && s.spotIndex <= |s.current.value.spots|)
    && (s.exhausted ==> s.current.None?)
    && (s.current.None? ==> s.next == |s.ticks|)
  }

  ghost function TickPart(s: Tour): seq<SystemEvent>
    requires Valid(s)
  {
    if s.current.None? then [] else TickEvents(s.current.value, s.tradeIndex, s.spotIndex, s.snapshotDelivered)
  }

  /** The market events still to come. */
  ghost function Upcoming(s: Tour): seq<SystemEvent>
    requires Valid(s)
  {
    TickPart(s) + AllTickEvents(s.ticks[s.next..])
  }

  ghost function ItemsLeft(s: Tour): nat
    requires Valid(s)
  {
    |s.queue| + match s.current
                case None => 0
                case Some(t) =>
                  |t.trades| - s.tradeIndex + |t.spots| - s.spotIndex + if s.snapshotDelivered then 0 else 1
  }

  ghost function TimersLeft(s: Tour): nat
    requires s.timer.endTime.Some?
  {
    if s.timer.nextTimer > s.timer.endTime.value then 0 else s.timer.endTime.value - s.timer.nextTimer + 1
  }

  predicate IsMarket(e: SystemEvent) { !e.Queued? && !e.Timer? }

  lemma {:induction false} TourTurnStep(s: Tour)
    requires Valid(s)
    ensures var (s', turn) := TourTurn(s);
            && Valid(s')
            && TicksLeft(s') <= TicksLeft(s)
            && (turn == Continue ==> TicksLeft(s') < TicksLeft(s))
            && (turn != Return(None) && turn != Continue ==>
                  TicksLeft(s') == TicksLeft(s) && ItemsLeft(s') <= ItemsLeft(s)
                  && (ItemsLeft(s') < ItemsLeft(s) || TimersLeft(s') < TimersLeft(s)))
  {
    if s.current.Some? { ScanKeepsConfig(s.timer, s.currentTime, TickEnd(s)); }
  }

  /** The head of what is left of a tick, in the order of its kinds. */
  lemma {:induction false} TickHead(t: Tick, trades: nat, spots: nat, done: bool)
    requires trades <= |t.trades| && spots <= |t.spots|
    ensures if trades < |t.trades| then
              TickEvents(t, trades, spots, done) == [TradeEvent(t.trades[trades])]
                  + TickEvents(t, trades + 1, spots, done)
            else if spots < |t.spots| then
              TickEvents(t, trades, spots, done) == [SpotEvent(t.spots[spots])] + TickEvents(t, trades, spots + 1, done)
            else if !done then
              TickEvents(t, trades, spots, done) == [BookEvent(t.snapshot)] + TickEvents(t, trades, spots, true)
            else TickEvents(t, trades, spots, done) == []
  {
  }

  /** What a turn does to the current tick and the ticks after it. */
  lemma {:induction false} TourTurnTick(s: Tour)
    requires Valid(s)
    ensures Valid(TourTurn(s).0)
    ensures var (s', turn) := TourTurn(s);
            if turn == Return(None) then TickPart(s) == [] && s.next == |s.ticks|
            else if turn == Continue then
              TickPart(s) == [] && s.next < |s.ticks| && s'.ticks == s.ticks && s'.next == s.next + 1
              && TickPart(s') == TickEvents(s.ticks[s.next], 0, 0, false)
            else s'.ticks == s.ticks && s'.next == s.next &&
                 if IsMarket(turn.event.value) then TickPart(s) == [turn.event.value] + TickPart(s')
                 else TickPart(s) == TickPart(s')
  {
    hide TickEvents, ScanTimers;
    TourTurnStep(s);
    if s.current.Some? {
      TickHead(s.current.value, s.tradeIndex, s.spotIndex, s.snapshotDelivered);
    }
  }

  /** A turn delivers the head of the upcoming market events, or leaves them as they are. */
  lemma {:induction false} TourTurnMarket(s: Tour)
    requires Valid(s)
    ensures Valid(TourTurn(s).0)
    ensures var (s', turn) := TourTurn(s);
            match turn
            case Return(None) => Upcoming(s) == []
            case Return(Some(e)) =>
              if IsMarket(e) then Upcoming(s) == [e] + Upcoming(s') else Upcoming(s) == Upcoming(s')
            case Continue => Upcoming(s) == Upcoming(s')
  {
    hide TourTurn, TickEvents, TickPart;
    TourTurnTick(s);
    var (s', turn) := TourTurn(s);
    var rest := s.ticks[s.next..];
    if turn == Continue {
      assert rest[1..] == s.ticks[s.next + 1..];
      assert [] + AllTickEvents(rest) == AllTickEvents(rest);
    } else if turn != Return(None) && IsMarket(turn.event.value) {
      Associate([turn.event.value], TickPart(s'), AllTickEvents(rest));
    }
  }

  lemma {:induction false} TourNextStep(s: Tour)
    requires Valid(s)
    ensures var (s', e) := TourNext(s);
            && Valid(s')
            && TicksLeft(s') <= TicksLeft(s)
            && (e.Some? && TicksLeft(s') == TicksLeft(s) ==>
                  ItemsLeft(s') <= ItemsLeft(s)
                  && (ItemsLeft(s') < ItemsLeft(s) || TimersLeft(s') < TimersLeft(s)))
            && match e
               case None => Upcoming(s) == []
               case Some(e) => if IsMarket(e) then Upcoming(s) == [e] + Upcoming(s') else Upcoming(s) == Upcoming(s')
    decreases TicksLeft(s)
  {
    TourTurnStep(s);
    TourTurnMarket(s);
    if TourTurn(s).1.Continue? {
      TourNextStep(TourTurn(s).0);
    }
  }

  /** All events delivered by calling `next_event` until it reports the end. */
  ghost function TourDrain(s: Tour): seq<SystemEvent>
    requires Valid(s)
    decreases TicksLeft(s), ItemsLeft(s), if s.timer.endTime.Some? then TimersLeft(s) else 0
  {
    TourNextStep(s);
    var (s', e) := TourNext(s);
    if e.None? then [] else [e.value] + TourDrain(s')
  }

  function MarketIn(events: seq<SystemEvent>): seq<SystemEvent> {
    if events == [] then []
    else (if IsMarket(events[0]) then [events[0]] else []) + MarketIn(events[1..])
  }

  /** From any state, whatever is queued and however timers fall, draining delivers exactly the
      market events to come, in order and each once. */
  lemma {:induction false} DrainsUpcoming(s: Tour)
    requires Valid(s)
    ensures MarketIn(TourDrain(s)) == Upcoming(s)
    decreases TicksLeft(s), ItemsLeft(s), TimersLeft(s)
  {
    TourNextStep(s);
    var (s', e) := TourNext(s);
    if e.Some? {
      DrainsUpcoming(s');
      assert ([e.value] + TourDrain(s'))[1..] == TourDrain(s');
    }
  }

  /** Timeline-mode delivery emits each tick's trades, then its spot prices, then its snapshot. */
  lemma {:induction false} DeliversTicks(ticks: seq<Tick>, interval: int)
    requires ticks != [] && interval > 0
    ensures Valid(InitTour(ticks, interval))
    ensures MarketIn(TourDrain(InitTour(ticks, interval))) == AllTickEvents(ticks)
  {
    DrainsUpcoming(InitTour(ticks, interval));
  }
}
