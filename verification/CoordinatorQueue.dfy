/** Calls of `next_event` interleaved with events the caller enqueues in between. */
module CoordinatorQueue {
  import opened Options
  import opened MarketData
  import opened Coordinator
  import opened CoordinatorRuns

  datatype Call = Enqueue(id: nat) | NextCall

  /** The final state and what each `NextCall` returned, None for `NoMoreEvents`. */
  function Run(step: LevelStep, s: Stream, calls: seq<Call>): (Stream, seq<Option<SystemEvent>>)
    decreases |calls|
  {
    if calls == [] then (s, [])
    else match calls[0]
      case Enqueue(id) => Run(step, s.(queue := s.queue + [id]), calls[1..])
      case NextCall =>
        var (s1, r) := Next(step, s);
        var (s2, rs) := Run(step, s1, calls[1..]);
        (s2, [r] + rs)
  }

  function Enqueued(calls: seq<Call>): seq<nat> {
    if calls == [] then []
    else (if calls[0].Enqueue? then [calls[0].id] else []) + Enqueued(calls[1..])
  }

  /** The enqueued events among the results, in order. */
  function QueuedOf(results: seq<Option<SystemEvent>>): seq<nat> {
    if results == [] then []
    else (match results[0] case Some(Queued(id)) => [id] case _ => []) + QueuedOf(results[1..])
  }

  /** The market and timer events among the results, in order. */
  function MarketOf(results: seq<Option<SystemEvent>>): seq<SystemEvent> {
    if results == [] then []
    else (if results[0].Some? && !results[0].value.Queued? then [results[0].value] else []) + MarketOf(results[1..])
  }

  /** The same state with nothing enqueued. */
  function Alone(s: Stream): Stream { s.(queue := []) }

  lemma {:induction false} AloneValid(s: Stream)
    requires Valid(s)
    ensures Valid(Alone(s))
  {
  }

  /** A call takes the head of the queue and leaves the market alone, or finds the queue empty. */
  lemma {:induction false} NextTakesQueueFirst(step: LevelStep, s: Stream)
    ensures s.exhausted ==> Next(step, s) == (s, None)
    ensures !s.exhausted && s.queue != [] ==>
              Next(step, s) == (s.(queue := s.queue[1..]), Some(Queued(s.queue[0])))
    ensures !s.exhausted && s.queue == [] ==> Alone(s) == s
  {
  }

  lemma {:induction false} MoveHead(h: seq<nat>, out: seq<nat>, left: seq<nat>, queue: seq<nat>, more: seq<nat>)
    requires out + left == queue + more
    ensures h + out + left == h + queue + more
  {
    assert h + out + left == h + (out + left);
    assert h + queue + more == h + (queue + more);
  }

  lemma {:induction false} QueuedOfCons(r: Option<SystemEvent>, rs: seq<Option<SystemEvent>>)
    ensures QueuedOf([r] + rs) == QueuedOf([r]) + QueuedOf(rs)
  {
    assert ([r] + rs)[1..] == rs;
    assert [r][1..] == [];
  }

  lemma {:induction false} FifoNext(step: LevelStep, s: Stream)
    ensures var (s1, r) := Next(step, s); s.queue == QueuedOf([r]) + s1.queue
  {
    NextTakesQueueFirst(step, s);
    if s.queue == [] { QueueStaysEmpty(step, s); }
  }

  /** FIFO and conservation: what has come out of the queue followed by what is still in it is
      what was in it followed by what was enqueued. */
  lemma {:induction false} QueueIsFifo(step: LevelStep, s: Stream, calls: seq<Call>)
    ensures var (s', results) := Run(step, s, calls);
            QueuedOf(results) + s'.queue == s.queue + Enqueued(calls)
    decreases |calls|
  {
    if calls != [] {
      match calls[0]
      case Enqueue(id) =>
        QueueIsFifo(step, s.(queue := s.queue + [id]), calls[1..]);
        assert s.queue + [id] + Enqueued(calls[1..]) == s.queue + ([id] + Enqueued(calls[1..]));
      case NextCall =>
        FifoNext(step, s);
        var (s1, r) := Next(step, s);
        QueueIsFifo(step, s1, calls[1..]);
        var (s2, rs) := Run(step, s1, calls[1..]);
        assert Enqueued(calls) == [] + Enqueued(calls[1..]) == Enqueued(calls[1..]);
        QueuedOfCons(r, rs);
        MoveHead(QueuedOf([r]), QueuedOf(rs), s2.queue, s1.queue, Enqueued(calls[1..]));
    }
  }

  lemma {:induction false} MarketOfCons(r: Option<SystemEvent>, rs: seq<Option<SystemEvent>>)
    ensures MarketOf([r] + rs) == MarketOf([r]) + MarketOf(rs)
  {
    assert ([r] + rs)[1..] == rs;
    assert [r][1..] == [];
  }

  lemma {:induction false} DrainOne(step: LevelStep, s: Stream)
    requires Valid(s)
    ensures var (s1, r) := Next(step, s);
            Valid(s1) && Drain(step, s) == if r.None? then [] else [r.value] + Drain(step, s1)
  {
    NextValid(step, s);
  }

  lemma {:induction false} DrainOver(step: LevelStep, s: Stream)
    requires Valid(s) && s.exhausted
    ensures Drain(step, s) == []
  {
    NextTakesQueueFirst(step, s);
  }

  lemma {:induction false} MarketOfOne(r: Option<SystemEvent>)
    ensures MarketOf([r]) == if r.Some? && !r.value.Queued? then [r.value] else []
  {
    assert [r][1..] == [];
  }

  /** One call delivers the head of what the market still has to deliver, or none of it. */
  lemma {:induction false} MarketNext(step: LevelStep, s: Stream)
    requires Valid(s)
    ensures var (s1, r) := Next(step, s);
            && Valid(s1) && Valid(Alone(s1)) && Valid(Alone(s))
            && MarketOf([r]) + Drain(step, Alone(s1)) == Drain(step, Alone(s))
  {
    AloneValid(s);
    NextValid(step, s);
    NextTakesQueueFirst(step, s);
    var (s1, r) := Next(step, s);
    AloneValid(s1);
    hide Next, Drain, Valid, MarketOf;
    MarketOfOne(r);
    if s.exhausted {
    } else if s.queue != [] {
      assert Alone(s1) == Alone(s);
    } else {
      QueueStaysEmpty(step, s);
      assert Alone(s1) == s1 && Alone(s) == s;
      DrainOne(step, s);
      if r.None? { DrainOver(step, s1); }
    }
  }

  /** However calls are interleaved with enqueues, the market and timer events delivered so far,
      followed by those the market still has to deliver, are those of the run with no enqueues. */
  lemma {:induction false} MarketUnaffected(step: LevelStep, s: Stream, calls: seq<Call>)
    requires Valid(s)
    ensures var (s', results) := Run(step, s, calls);
            && Valid(Alone(s')) && Valid(Alone(s))
            && MarketOf(results) + Drain(step, Alone(s')) == Drain(step, Alone(s))
    decreases |calls|
  {
    hide Next, Drain;
    AloneValid(s);
    if calls != [] {
      match calls[0]
      case Enqueue(id) =>
        var s1 := s.(queue := s.queue + [id]);
        assert Alone(s1) == Alone(s);
        MarketUnaffected(step, s1, calls[1..]);
      case NextCall =>
        MarketNext(step, s);
        var (s1, r) := Next(step, s);
        MarketUnaffected(step, s1, calls[1..]);
        var (s2, rs) := Run(step, s1, calls[1..]);
        MarketOfCons(r, rs);
    }
  }

  lemma {:induction false} RunConcat(step: LevelStep, s: Stream, a: seq<Call>, b: seq<Call>)
    ensures var (s1, r1) := Run(step, s, a);
            var (s2, r2) := Run(step, s1, b);
            Run(step, s, a + b) == (s2, r1 + r2)
    decreases |a|
  {
    if a == [] {
      assert a + b == b;
      assert [] + Run(step, s, b).1 == Run(step, s, b).1;
    } else {
      assert (a + b)[0] == a[0] && (a + b)[1..] == a[1..] + b;
      match a[0]
      case Enqueue(id) => RunConcat(step, s.(queue := s.queue + [id]), a[1..], b);
      case NextCall =>
        var (s1, r) := Next(step, s);
        RunConcat(step, s1, a[1..], b);
        var (m, r1) := Run(step, s1, a[1..]);
        assert [r] + (r1 + Run(step, m, b).1) == [r] + r1 + Run(step, m, b).1;
    }
  }

  lemma {:induction false} LastCall(step: LevelStep, s: Stream)
    ensures Run(step, s, [NextCall]) == (Next(step, s).0, [Next(step, s).1])
  {
    var calls := [NextCall];
    assert calls[1..] == [];
    assert Run(step, Next(step, s).0, calls[1..]) == (Next(step, s).0, []);
    assert [Next(step, s).1] + [] == [Next(step, s).1];
  }

  /** The call that first reports the end finds the queue empty, so everything enqueued before it
      has been delivered, and the market has been delivered completely. */
  lemma {:induction false} DeliveredBeforeTheEnd(step: LevelStep, s: Stream, calls: seq<Call>)
    requires Valid(s)
    requires !Run(step, s, calls).0.exhausted && Run(step, s, calls + [NextCall]).0.exhausted
    ensures var results := Run(step, s, calls).1;
            && Run(step, s, calls + [NextCall]).1 == results + [None]
            && QueuedOf(results) == s.queue + Enqueued(calls)
            && Valid(Alone(s)) && MarketOf(results) == Drain(step, Alone(s))
  {
    var (m, results) := Run(step, s, calls);
    RunConcat(step, s, calls, [NextCall]);
    LastCall(step, m);
    QueueIsFifo(step, s, calls);
    MarketUnaffected(step, s, calls);
    RunValid(step, s, calls);
    NextTakesQueueFirst(step, m);
    NextValid(step, m);
  }

  lemma {:induction false} RunValid(step: LevelStep, s: Stream, calls: seq<Call>)
    requires Valid(s)
    ensures Valid(Run(step, s, calls).0)
    decreases |calls|
  {
    if calls != [] {
      match calls[0]
      case Enqueue(id) => RunValid(step, s.(queue := s.queue + [id]), calls[1..]);
      case NextCall =>
        NextValid(step, s);
        RunValid(step, Next(step, s).0, calls[1..]);
    }
  }

  /** `NoMoreEvents` is final: no later call returns an event, whatever is enqueued, and the
      market is left as it is. */
  lemma {:induction false} EndIsAbsorbing(step: LevelStep, s: Stream, calls: seq<Call>)
    requires s.exhausted
    ensures var (s', results) := Run(step, s, calls);
            && (forall r | r in results :: r == None)
            && Alone(s') == Alone(s)
    decreases |calls|
  {
    if calls != [] {
      match calls[0]
      case Enqueue(id) =>
        EndIsAbsorbing(step, s.(queue := s.queue + [id]), calls[1..]);
      case NextCall =>
        EndIsAbsorbing(step, s, calls[1..]);
    }
  }
}
