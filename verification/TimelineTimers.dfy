/** The timers and the clock of the timeline mode. Timers that fall on the end of a tick are dropped, so
    there is no exact count; what is delivered lies on the grid of the interval. */
module TimelineTimers {
  import opened Options
  import opened Coordinator
  import opened TimelineCoordinator
  import opened Timeline
  import CoordinatorRuns

  /** `to` is a whole number of intervals after `from`. */
  ghost predicate Aligned(from: int, to: int, interval: int) {
    exists k: nat :: to == from + k * interval
  }

  lemma {:induction false} AlignedBy(from: int, to: int, interval: int, k: nat)
    requires to == from + k * interval
    ensures Aligned(from, to, interval)
  {
  }

  lemma {:induction false} AlignedTransitive(a: int, b: int, c: int, interval: int)
    requires Aligned(a, b, interval) && Aligned(b, c, interval)
    ensures Aligned(a, c, interval)
  {
    var j: nat :| b == a + j * interval;
    var k: nat :| c == b + k * interval;
    assert (j + k) * interval == j * interval + k * interval;
    AlignedBy(a, c, interval, j + k);
  }

  predicate Over(timer: TimerState, end: int) {
    (timer.endTime.Some? && timer.nextTimer > timer.endTime.value) || timer.nextTimer > end
  }

  /** What a scan for timers does: it passes over the grid points up to `now` that lie before `end`, and
      the next one is delivered if it lies before `end`, dropped if it is `end` itself, and kept if it
      lies after `end` or after the last time there are timers. */
  lemma {:induction false} ScanExactly(timer: TimerState, now: int, end: int) returns (at: TimerState)
    requires timer.interval > 0
    ensures at == timer.(nextTimer := at.nextTimer) && Aligned(timer.nextTimer, at.nextTimer, timer.interval)
    ensures at.nextTimer > timer.nextTimer ==>
              && at.nextTimer - timer.interval <= now && at.nextTimer - timer.interval < end
              && (timer.endTime.Some? ==> at.nextTimer - timer.interval <= timer.endTime.value)
    ensures ScanTimers(timer, now, end) ==
              if Over(at, end) then (at, None)
              else if at.nextTimer == end then (at.(nextTimer := end + timer.interval), None)
              else (at.(nextTimer := at.nextTimer + timer.interval), Some(at.nextTimer))
    ensures Over(at, end) || at.nextTimer == end || (now < at.nextTimer < end)
    decreases end - timer.nextTimer
  {
    if timer.ShouldEmit(end) && timer.nextTimer <= now && timer.nextTimer < end {
      at := ScanExactly(timer.Advance(), now, end);
      AlignedBy(timer.nextTimer, timer.nextTimer + timer.interval, timer.interval, 1);
      AlignedTransitive(timer.nextTimer, timer.nextTimer + timer.interval, at.nextTimer, timer.interval);
    } else {
      at := timer;
      AlignedBy(timer.nextTimer, timer.nextTimer, timer.interval, 0);
    }
  }

  /** A step from `s` to `s'` that returned `e`, as far as timers and the clock go: a timer lies on the
      grid, after the clock and not after the last time, and the next one comes after it; every market
      event and timer sets the clock to its own time, and nothing else moves it. */
  ghost predicate KeepsTime(s: Tour, s': Tour, e: Option<SystemEvent>) {
    var next := s.timer.nextTimer;
    && s'.timer.interval == s.timer.interval && s'.timer.endTime == s.timer.endTime
    && Aligned(next, s'.timer.nextTimer, s.timer.interval)
    && (if e.Some? && !e.value.Queued? then s'.currentTime == CoordinatorRuns.EventTs(e.value)
        else s'.currentTime == s.currentTime)
    && (e.Some? && e.value.Timer? ==>
          && Aligned(next, e.value.ts, s.timer.interval) && s'.timer.nextTimer == e.value.ts + s.timer.interval
          && s.currentTime < e.value.ts && (s.timer.endTime.Some? ==> e.value.ts <= s.timer.endTime.value))
  }

  /** A timer delivered in a tick comes before the next tick, or within a second of the last one. */
  lemma {:induction false} TurnKeepsTime(s: Tour)
    requires s.timer.interval > 0
    ensures var (s', turn) := TourTurn(s);
            && KeepsTime(s, s', if turn.Return? then turn.event else None)
            && (turn.Return? && turn.event.Some? && turn.event.value.Timer? ==>
                  && s.current.Some?
                  && turn.event.value.ts <
                     if s.next < |s.ticks| then s.ticks[s.next].snapshot.ts else s.current.value.snapshot.ts + 1000)
  {
    hide ScanTimers;
    var next := s.timer.nextTimer;
    AlignedBy(next, next, s.timer.interval, 0);
    if s.current.Some? {
      var at := ScanExactly(s.timer, s.currentTime, TickEnd(s));
      AlignedBy(at.nextTimer, at.nextTimer + s.timer.interval, s.timer.interval, 1);
      AlignedTransitive(next, at.nextTimer, at.nextTimer + s.timer.interval, s.timer.interval);
    }
  }

  lemma {:induction false} NextKeepsTime(s: Tour)
    requires s.timer.interval > 0
    ensures KeepsTime(s, TourNext(s).0, TourNext(s).1)
    decreases TicksLeft(s)
  {
    hide TourTurn;
    TurnKeepsTime(s);
    TurnKeepsInterval(s);
    var (s1, turn) := TourTurn(s);
    if turn.Continue? {
      NextKeepsTime(s1);
      var (s2, e) := TourNext(s1);
      AlignedTransitive(s.timer.nextTimer, s1.timer.nextTimer, s2.timer.nextTimer, s.timer.interval);
      if e.Some? && e.value.Timer? {
        AlignedTransitive(s.timer.nextTimer, s1.timer.nextTimer, e.value.ts, s.timer.interval);
      }
    }
  }

  /** Times on the grid from `next` on, no two nearer than an interval, none after `end`. */
  ghost predicate OnGrid(times: seq<int>, next: int, interval: int, end: int) {
    && (forall i | 0 <= i < |times| :: Aligned(next, times[i], interval) && next <= times[i] <= end)
    && (forall i, j | 0 <= i < j < |times| :: times[i] + interval <= times[j])
  }

  lemma {:induction false} OnGridLater(times: seq<int>, next: int, later: int, interval: int, end: int)
    requires interval > 0 && Aligned(next, later, interval) && OnGrid(times, later, interval, end)
    ensures next <= later && OnGrid(times, next, interval, end)
  {
    AlignedForward(next, later, interval);
    forall i | 0 <= i < |times| ensures Aligned(next, times[i], interval) {
      AlignedTransitive(next, later, times[i], interval);
    }
  }

  lemma {:induction false} AlignedForward(from: int, to: int, interval: int)
    requires interval > 0 && Aligned(from, to, interval)
    ensures from <= to
  {
    var k: nat :| to == from + k * interval;
    assert k * interval >= 0;
  }

  lemma {:induction false} OnGridCons(t: int, times: seq<int>, next: int, interval: int, end: int)
    requires interval > 0 && Aligned(next, t, interval) && t <= end && OnGrid(times, t + interval, interval, end)
    ensures OnGrid([t] + times, next, interval, end)
  {
    AlignedForward(next, t, interval);
    AlignedBy(t, t + interval, interval, 1);
    AlignedTransitive(next, t, t + interval, interval);
    OnGridLater(times, next, t + interval, interval, end);
  }

  /** Main result: the timers delivered from any state lie on the grid, at least an interval apart, and
      not after the last time. */
  lemma {:induction false} DrainTimersOnGrid(s: Tour)
    requires Valid(s)
    ensures OnGrid(CoordinatorRuns.TimersIn(TourDrain(s)), s.timer.nextTimer, s.timer.interval, s.timer.endTime.value)
    decreases TicksLeft(s), ItemsLeft(s), TimersLeft(s)
  {
    hide TourNext;
    TourNextStep(s);
    NextKeepsTime(s);
    var (s', e) := TourNext(s);
    if e.Some? {
      DrainTimersOnGrid(s');
      var rest := CoordinatorRuns.TimersIn(TourDrain(s'));
      assert ([e.value] + TourDrain(s'))[1..] == TourDrain(s');
      if e.value.Timer? {
        OnGridCons(e.value.ts, rest, s.timer.nextTimer, s.timer.interval, s.timer.endTime.value);
      } else {
        OnGridLater(rest, s.timer.nextTimer, s'.timer.nextTimer, s.timer.interval, s.timer.endTime.value);
        assert [] + rest == rest;
      }
    }
  }

  /** For a new coordinator the grid starts at the first snapshot, where its clock stands, and ends at
      the last one. */
  lemma {:induction false} TimelineTimersOnGrid(ticks: seq<Tick>, interval: int)
    requires ticks != [] && interval > 0
    ensures var s := InitTour(ticks, interval);
            && Valid(s) && s.currentTime == ticks[0].snapshot.ts
            && OnGrid(CoordinatorRuns.TimersIn(TourDrain(s)), ticks[0].snapshot.ts, interval,
                      ticks[|ticks| - 1].snapshot.ts)
  {
    DrainTimersOnGrid(InitTour(ticks, interval));
  }
}
