/** Calls of `next_event` in timeline mode, interleaved with events the caller enqueues in between.
    The calls and what is read off their results are those of the streaming mode. */
module TimelineQueue {
  import opened Options
  import opened Coordinator
  import opened TimelineCoordinator
  import opened CoordinatorQueue

  /** The final state and what each `NextCall` returned, None for `NoMoreEvents`. */
  function TourRun(s: Tour, calls: seq<Call>): (Tour, seq<Option<SystemEvent>>)
    requires s.timer.interval > 0
    decreases |calls|
  {
    if calls == [] then (s, [])
    else match calls[0]
      case Enqueue(id) => TourRun(s.(queue := s.queue + [id]), calls[1..])
      case NextCall =>
        TourKeepsInterval(s);
        var (s1, r) := TourNext(s);
        var (s2, rs) := TourRun(s1, calls[1..]);
        (s2, [r] + rs)
  }

  lemma {:induction false} TourKeepsInterval(s: Tour)
    requires s.timer.interval > 0
    ensures TourNext(s).0.timer.interval == s.timer.interval
    decreases TicksLeft(s)
  {
    if s.current.Some? { ScanKeepsConfig(s.timer, s.currentTime, TickEnd(s)); }
    if TourTurn(s).1.Continue? {
      TourKeepsInterval(TourTurn(s).0);
    }
  }

  /** The same state with nothing enqueued. */
  function TourAlone(s: Tour): Tour { s.(queue := []) }

  /** A call takes the head of the queue and leaves the rest alone. */
  lemma {:induction false} TourTakesQueueFirst(s: Tour)
    requires s.timer.interval > 0
    ensures s.exhausted ==> TourNext(s) == (s, None)
    ensures !s.exhausted && s.queue != [] ==>
              TourNext(s) == (s.(queue := s.queue[1..]), Some(Queued(s.queue[0])))
    ensures !s.exhausted && s.queue == [] ==> TourAlone(s) == s
  {
  }

  /** With an empty queue nothing is taken from it, and the end is reported exactly by becoming
      exhausted. */
  lemma {:induction false} TourQueueStaysEmpty(s: Tour)
    requires s.timer.interval > 0 && s.queue == [] && !s.exhausted
    ensures var (s', e) := TourNext(s);
            && s'.queue == []
            && (e.Some? ==> !e.value.Queued?)
            && (e.None? <==> s'.exhausted)
    decreases TicksLeft(s)
  {
    if s.current.Some? { ScanKeepsConfig(s.timer, s.currentTime, TickEnd(s)); }
    if TourTurn(s).1.Continue? {
      TourQueueStaysEmpty(TourTurn(s).0);
    }
  }

  lemma {:induction false} TourFifoNext(s: Tour)
    requires s.timer.interval > 0
    ensures var (s1, r) := TourNext(s); s.queue == QueuedOf([r]) + s1.queue
  {
    hide TourNext;
    TourTakesQueueFirst(s);
    var r := TourNext(s).1;
    assert [r][1..] == [];
    if s.exhausted {
    } else if s.queue == [] {
      TourQueueStaysEmpty(s);
    } else {
      assert [s.queue[0]] + s.queue[1..] == s.queue;
    }
  }

  /** FIFO and conservation in timeline mode: what has come out of the queue followed by what is still
      in it is what was in it followed by what was enqueued. */
  lemma {:induction false} TourQueueIsFifo(s: Tour, calls: seq<Call>)
    requires s.timer.interval > 0
    ensures var (s', results) := TourRun(s, calls);
            QueuedOf(results) + s'.queue == s.queue + Enqueued(calls)
    decreases |calls|
  {
    hide TourNext;
    if calls != [] {
      match calls[0]
      case Enqueue(id) =>
        TourQueueIsFifo(s.(queue := s.queue + [id]), calls[1..]);
        assert s.queue + [id] + Enqueued(calls[1..]) == s.queue + ([id] + Enqueued(calls[1..]));
      case NextCall =>
        TourFifoNext(s);
        TourKeepsInterval(s);
        var (s1, r) := TourNext(s);
        TourQueueIsFifo(s1, calls[1..]);
        var (s2, rs) := TourRun(s1, calls[1..]);
        assert Enqueued(calls) == [] + Enqueued(calls[1..]) == Enqueued(calls[1..]);
        QueuedOfCons(r, rs);
        MoveHead(QueuedOf([r]), QueuedOf(rs), s2.queue, s1.queue, Enqueued(calls[1..]));
    }
  }

  /** One call delivers the head of the market and timer events still to come, or none of them. */
  lemma {:induction false} TourMarketNext(s: Tour)
    requires Valid(s)
    ensures var (s1, r) := TourNext(s);
            && Valid(s1) && Valid(TourAlone(s1)) && Valid(TourAlone(s))
            && MarketOf([r]) + TourDrain(TourAlone(s1)) == TourDrain(TourAlone(s))
  {
    hide TourNext;
    TourNextStep(s);
    var (s1, r) := TourNext(s);
    TourTakesQueueFirst(s);
    if s.exhausted {
    } else if s.queue != [] {
      assert TourAlone(s1) == TourAlone(s);
    } else {
      TourQueueStaysEmpty(s);
      assert TourAlone(s1) == s1;
      assert MarketOf([r]) == if r.Some? then [r.value] else [];
      if r.None? {
        TourTakesQueueFirst(s1);
      }
    }
  }

  /** However calls are interleaved with enqueues in timeline mode, the market and timer events
      delivered so far, followed by those still to come, are those of the run with no enqueues. */
  lemma {:induction false} TourMarketUnaffected(s: Tour, calls: seq<Call>)
    requires Valid(s)
    ensures var (s', results) := TourRun(s, calls);
            && Valid(s') && Valid(TourAlone(s')) && Valid(TourAlone(s))
            && MarketOf(results) + TourDrain(TourAlone(s')) == TourDrain(TourAlone(s))
    decreases |calls|
  {
    hide TourNext, TourDrain;
    if calls != [] {
      match calls[0]
      case Enqueue(id) =>
        var s1 := s.(queue := s.queue + [id]);
        assert TourAlone(s1) == TourAlone(s);
        TourMarketUnaffected(s1, calls[1..]);
      case NextCall =>
        TourMarketNext(s);
        TourKeepsInterval(s);
        var (s1, r) := TourNext(s);
        TourMarketUnaffected(s1, calls[1..]);
        var (s2, rs) := TourRun(s1, calls[1..]);
        MarketOfCons(r, rs);
    }
  }

  lemma {:induction false} TourRunConcat(s: Tour, a: seq<Call>, b: seq<Call>)
    requires s.timer.interval > 0
    ensures TourRun(s, a).0.timer.interval > 0
    ensures var (s1, r1) := TourRun(s, a);
            var (s2, r2) := TourRun(s1, b);
            TourRun(s, a + b) == (s2, r1 + r2)
    decreases |a|
  {
    hide TourNext;
    if a == [] {
      assert a + b == b;
      assert [] + TourRun(s, b).1 == TourRun(s, b).1;
    } else {
      assert (a + b)[0] == a[0] && (a + b)[1..] == a[1..] + b;
      match a[0]
      case Enqueue(id) => TourRunConcat(s.(queue := s.queue + [id]), a[1..], b);
      case NextCall =>
        TourKeepsInterval(s);
        var (s1, r) := TourNext(s);
        TourRunConcat(s1, a[1..], b);
        var (m, r1) := TourRun(s1, a[1..]);
        assert [r] + (r1 + TourRun(m, b).1) == [r] + r1 + TourRun(m, b).1;
    }
  }

  lemma {:induction false} TourLastCall(s: Tour)
    requires s.timer.interval > 0
    ensures TourRun(s, [NextCall]) == (TourNext(s).0, [TourNext(s).1])
  {
    hide TourNext;
    var calls := [NextCall];
    assert calls[1..] == [];
    TourKeepsInterval(s);
    assert TourRun(TourNext(s).0, calls[1..]) == (TourNext(s).0, []);
    assert [TourNext(s).1] + [] == [TourNext(s).1];
  }

  /** The call that first reports the end finds the queue empty and the timeline delivered, so
      everything enqueued before it and all market and timer events have come out. */
  lemma {:induction false} TourDeliveredBeforeTheEnd(s: Tour, calls: seq<Call>)
    requires Valid(s)
    requires !TourRun(s, calls).0.exhausted && TourRun(s, calls + [NextCall]).0.exhausted
    ensures var results := TourRun(s, calls).1;
            && TourRun(s, calls + [NextCall]).1 == results + [None]
            && QueuedOf(results) == s.queue + Enqueued(calls)
            && Valid(TourAlone(s)) && MarketOf(results) == TourDrain(TourAlone(s))
  {
    hide TourNext, TourRun;
    var (m, results) := TourRun(s, calls);
    TourRunConcat(s, calls, [NextCall]);
    TourLastCall(m);
    TourQueueIsFifo(s, calls);
    TourMarketUnaffected(s, calls);
    TourTakesQueueFirst(m);
    assert m.queue == [];
    TourQueueStaysEmpty(m);
    assert TourDrain(TourAlone(m)) == [];
  }

  /** `NoMoreEvents` is final in timeline mode too: no later call returns an event, whatever is
      enqueued, and the rest of the state is left as it is. */
  lemma {:induction false} TourEndIsAbsorbing(s: Tour, calls: seq<Call>)
    requires s.exhausted && s.timer.interval > 0
    ensures var (s', results) := TourRun(s, calls);
            && (forall r | r in results :: r == None)
            && TourAlone(s') == TourAlone(s)
    decreases |calls|
  {
    if calls != [] {
      match calls[0]
      case Enqueue(id) => TourEndIsAbsorbing(s.(queue := s.queue + [id]), calls[1..]);
      case NextCall => TourEndIsAbsorbing(s, calls[1..]);
    }
  }
}
