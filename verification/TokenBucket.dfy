/** The token-bucket rate limiter, alone and shared by threads. Times are integers (nanoseconds). */
module TokenBucket {
  import opened Arithmetic

  /** What `new` fixes; `rate` is the time one token takes to come back. */
  datatype Config = Config(capacity: nat, rate: int)

  datatype Bucket = Bucket(tokens: nat, last: int)

  function Min(a: nat, b: nat): nat {
    if a <= b then a else b
  }

  /** A clock reading older than the last refill counts as no time elapsed. */
  function Elapsed(b: Bucket, now: int): nat {
    if now > b.last then now - b.last else 0
  }

  function Refilled(c: Config, b: Bucket, now: int): Bucket
    requires c.rate > 0
  {
    if Elapsed(b, now) >= c.rate
    then Bucket(Min(c.capacity, b.tokens + Elapsed(b, now) / c.rate), now)
    else b
  }

  function Taken(b: Bucket): Bucket {
    if b.tokens > 0 then b.(tokens := b.tokens - 1) else b
  }

  class RateLimiter {
    const config: Config
    var tokens: nat
    var lastRefill: int

    ghost predicate Valid()
      reads this
    {
      config.rate > 0 && tokens <= config.capacity
    }

    function Value(): Bucket
      reads this
    {
      Bucket(tokens, lastRefill)
    }

    constructor (capacity: nat, rate: int, now: int)
      requires rate > 0
      ensures Valid() && config == Config(capacity, rate) && Value() == Bucket(capacity, now)
    {
      config := Config(capacity, rate);
      tokens := capacity;
      lastRefill := now;
    }

    method Refill(now: int)
      requires Valid()
      modifies this
      ensures Valid() && Value() == Refilled(config, old(Value()), now)
    {
      var elapsed := if now > lastRefill then now - lastRefill else 0;
      if elapsed >= config.rate {
        var tokensToAdd := elapsed / config.rate;
        tokens := Min(config.capacity, tokens + tokensToAdd);
        lastRefill := now;
      }
    }

    method TryConsume(now: int) returns (ok: bool)
      requires Valid()
      modifies this
      ensures Valid()
      ensures ok <==> Refilled(config, old(Value()), now).tokens > 0
      ensures Value() == Taken(Refilled(config, old(Value()), now))
    {
      Refill(now);
      if tokens > 0 {
        tokens := tokens - 1;
        ok := true;
      } else {
        ok := false;
      }
    }
  }

  /** A refill restores one token for each of `k` full periods, as far as there is room; so with any
      capacity at all a call a period after the last refill is granted. */
  lemma {:induction false} PeriodsRestored(c: Config, b: Bucket, now: int, k: nat)
    requires c.rate > 0 && b.tokens <= c.capacity && now >= b.last + k * c.rate
    ensures Refilled(c, b, now).tokens >= Min(c.capacity, b.tokens + k)
    ensures k >= 1 && c.capacity >= 1 ==> Refilled(c, b, now).tokens >= 1
  {
    if k >= 1 {
      MulAtLeast(k, c.rate);
      DivMonotone(k * c.rate, now - b.last, c.rate);
      DivUnique(k * c.rate, c.rate, k, 0);
    }
  }

  // ---------------------------------------------------------------- threads

  /** Where a thread is inside `try_consume`: outside, past the clock reading, past the refill. The
      refill and the take are one step each, since each holds its lock. */
  datatype Phase = Idle | HasRead(now: int) | HasRefilled

  datatype System = System(bucket: Bucket, clock: int, threads: seq<Phase>)

  datatype Step = Tick(to: int) | ReadClock(i: nat) | DoRefill(i: nat) | DoTake(i: nat)

  predicate Enabled(y: System, step: Step) {
    match step
    case Tick(to) => to >= y.clock
    case ReadClock(i) => i < |y.threads| && y.threads[i].Idle?
    case DoRefill(i) => i < |y.threads| && y.threads[i].HasRead?
    case DoTake(i) => i < |y.threads| && y.threads[i].HasRefilled?
  }

  /** A step that is not enabled does nothing, so that every sequence of steps is a run. */
  function Next(c: Config, y: System, step: Step): System
    requires c.rate > 0
  {
    if !Enabled(y, step) then y else
    match step
    case Tick(to) => y.(clock := to)
    case ReadClock(i) => y.(threads := y.threads[i := HasRead(y.clock)])
    case DoRefill(i) => System(Refilled(c, y.bucket, y.threads[i].now), y.clock, y.threads[i := HasRefilled])
    case DoTake(i) => System(Taken(y.bucket), y.clock, y.threads[i := Idle])
  }

  function Run(c: Config, y: System, steps: seq<Step>): System
    requires c.rate > 0
    decreases |steps|
  {
    if steps == [] then y else Run(c, Next(c, y, steps[0]), steps[1..])
  }

  predicate Grants(y: System, step: Step) {
    Enabled(y, step) && step.DoTake? && y.bucket.tokens > 0
  }

  /** How many tokens the run hands out while the clock shows a time in [s, e]. */
  function GrantedIn(c: Config, y: System, steps: seq<Step>, s: int, e: int): nat
    requires c.rate > 0
    decreases |steps|
  {
    if steps == [] then 0 else
    (if s <= y.clock <= e && Grants(y, steps[0]) then 1 else 0) +
    GrantedIn(c, Next(c, y, steps[0]), steps[1..], s, e)
  }

  /** What every reachable state satisfies. */
  predicate Consistent(c: Config, y: System) {
    && y.bucket.tokens <= c.capacity
    && y.bucket.last <= y.clock
    && forall i :: 0 <= i < |y.threads| && y.threads[i].HasRead? ==> y.threads[i].now <= y.clock
  }

  function Start(c: Config, now: int, threads: nat): System {
    System(Bucket(c.capacity, now), now, seq(threads, i => Idle))
  }

  lemma {:induction false} StaysConsistent(c: Config, y: System, step: Step)
    requires c.rate > 0 && Consistent(c, y)
    ensures var z := Next(c, y, step);
            && Consistent(c, z) && |z.threads| == |y.threads|
            && z.clock >= y.clock && z.bucket.last >= y.bucket.last
  {
  }

  lemma {:induction false} RunStaysConsistent(c: Config, y: System, steps: seq<Step>)
    requires c.rate > 0 && Consistent(c, y)
    ensures Consistent(c, Run(c, y, steps)) && Run(c, y, steps).bucket.last >= y.bucket.last
    decreases |steps|
  {
    if steps != [] {
      StaysConsistent(c, y, steps[0]);
      RunStaysConsistent(c, Next(c, y, steps[0]), steps[1..]);
    }
  }

  /** Whole runs: what is handed out and what is left is covered by what was there and by one token
      for each full period between the first and the last refill time. */
  lemma {:induction false} TokensConserved(c: Config, y: System, steps: seq<Step>, s: int, e: int)
    requires c.rate > 0 && Consistent(c, y)
    ensures var z := Run(c, y, steps);
            GrantedIn(c, y, steps, s, e) + z.bucket.tokens <= y.bucket.tokens + (z.bucket.last - y.bucket.last) / c.rate
    decreases |steps|
  {
    var z := Run(c, y, steps);
    if steps == [] {
    } else {
      var x := Next(c, y, steps[0]);
      StaysConsistent(c, y, steps[0]);
      RunStaysConsistent(c, x, steps[1..]);
      TokensConserved(c, x, steps[1..], s, e);
      StepConserves(c, y, steps[0], z.bucket.last);
    }
  }

  lemma {:induction false} StepConserves(c: Config, y: System, step: Step, until: int)
    requires c.rate > 0 && Next(c, y, step).bucket.last <= until
    ensures var z := Next(c, y, step);
            (if Grants(y, step) then 1 else 0) + z.bucket.tokens + (until - z.bucket.last) / c.rate
              <= y.bucket.tokens + (until - y.bucket.last) / c.rate
  {
    if Enabled(y, step) && step.DoRefill? {
      var now := y.threads[step.i].now;
      if Elapsed(y.bucket, now) >= c.rate {
        DivSum(now - y.bucket.last, until - now, c.rate);
      }
    }
  }

  // ---------------------------------------------------------------- the bound on a window

  /** A thread whose next take follows a clock reading made before `s`. */
  predicate Early(p: Phase, s: int) {
    p.HasRefilled? || (p.HasRead? && p.now < s)
  }

  function EarlyCount(threads: seq<Phase>, s: int): (n: nat)
    ensures n <= |threads|
  {
    if threads == [] then 0 else (if Early(threads[0], s) then 1 else 0) + EarlyCount(threads[1..], s)
  }

  lemma {:induction false} EarlyUpdate(threads: seq<Phase>, s: int, i: nat, p: Phase)
    requires i < |threads|
    ensures EarlyCount(threads[i := p], s) + (if Early(threads[i], s) then 1 else 0)
         == EarlyCount(threads, s) + (if Early(p, s) then 1 else 0)
  {
    if i == 0 {
      assert threads[i := p][1..] == threads[1..];
    } else {
      assert threads[i := p][1..] == threads[1..][i - 1 := p];
      EarlyUpdate(threads[1..], s, i - 1, p);
    }
  }

  function Bound(c: Config, threads: nat, s: int, e: int): int
    requires c.rate > 0
  {
    c.capacity + (e - s) / c.rate + threads
  }

  /** The last refill is less than a period before the window. */
  predicate Warm(c: Config, y: System, s: int) {
    y.bucket.last > s - c.rate
  }

  /** Inside the window, `granted` tokens in: while the bucket is cold only takes with an early reading
      can have happened, at most one for each thread; once warm, the tokens and the periods left
      are all there is. */
  predicate WithinBudget(c: Config, y: System, granted: nat, s: int, e: int)
    requires c.rate > 0
  {
    if Warm(c, y, s)
    then granted + y.bucket.tokens + (e - y.bucket.last) / c.rate <= Bound(c, |y.threads|, s, e)
    else granted + EarlyCount(y.threads, s) <= |y.threads|
  }

  lemma {:induction false} WarmStart(c: Config, y: System, granted: nat, s: int, e: int)
    requires c.rate > 0 && Consistent(c, y) && s <= e && Warm(c, y, s)
    requires granted + (if y.bucket.last >= s then 0 else 1) <= |y.threads|
    ensures WithinBudget(c, y, granted, s, e)
  {
    if y.bucket.last >= s {
      DivMonotone(e - y.bucket.last, e - s, c.rate);
    } else {
      DivMonotone(e - y.bucket.last, e - s + c.rate, c.rate);
      DivAddMultiple(e - s, c.rate, 1);
    }
  }

  /** A refill of a cold bucket: if it warms it, thread i has its take still to come. */
  lemma {:induction false} ColdRefill(c: Config, y: System, i: nat, granted: nat, s: int, e: int)
    requires c.rate > 0 && Consistent(c, y) && s <= y.clock <= e && WithinBudget(c, y, granted, s, e)
    requires Enabled(y, DoRefill(i)) && !Warm(c, y, s)
    ensures WithinBudget(c, Next(c, y, DoRefill(i)), granted, s, e)
  {
    var z := Next(c, y, DoRefill(i));
    StaysConsistent(c, y, DoRefill(i));
    EarlyUpdate(y.threads, s, i, HasRefilled);
    EarlyUpdate(y.threads, s, i, Idle);
    if Warm(c, z, s) {
      assert z.bucket.last == y.threads[i].now;
      WarmStart(c, z, granted, s, e);
    }
  }

  lemma {:induction false} BudgetKept(c: Config, y: System, step: Step, granted: nat, s: int, e: int)
    requires c.rate > 0 && Consistent(c, y) && s <= y.clock <= e && WithinBudget(c, y, granted, s, e)
    requires Next(c, y, step).clock <= e
    ensures WithinBudget(c, Next(c, y, step), granted + (if Grants(y, step) then 1 else 0), s, e)
  {
    var z := Next(c, y, step);
    StaysConsistent(c, y, step);
    if Warm(c, y, s) {
      StepConserves(c, y, step, e);
    } else if Enabled(y, step) {
      match step
      case Tick(to) =>
      case ReadClock(i) => EarlyUpdate(y.threads, s, i, HasRead(y.clock));
      case DoTake(i) => EarlyUpdate(y.threads, s, i, Idle);
      case DoRefill(i) => ColdRefill(c, y, i, granted, s, e);
    }
  }

  lemma {:induction false} AfterWindow(c: Config, y: System, steps: seq<Step>, s: int, e: int)
    requires c.rate > 0 && y.clock > e
    ensures GrantedIn(c, y, steps, s, e) == 0
    decreases |steps|
  {
    if steps != [] { AfterWindow(c, Next(c, y, steps[0]), steps[1..], s, e); }
  }

  lemma {:induction false} InWindow(c: Config, y: System, steps: seq<Step>, granted: nat, s: int, e: int)
    requires c.rate > 0 && Consistent(c, y) && s <= y.clock <= e && WithinBudget(c, y, granted, s, e)
    ensures granted + GrantedIn(c, y, steps, s, e) <= Bound(c, |y.threads|, s, e)
    decreases |steps|
  {
    if steps == [] {
      assert (e - s) / c.rate >= 0 && (e - y.bucket.last) / c.rate >= 0;
    } else {
      var z := Next(c, y, steps[0]);
      var g := if Grants(y, steps[0]) then 1 else 0;
      StaysConsistent(c, y, steps[0]);
      if z.clock <= e {
        BudgetKept(c, y, steps[0], granted, s, e);
        InWindow(c, z, steps[1..], granted + g, s, e);
      } else {
        AfterWindow(c, z, steps[1..], s, e);
        InWindow(c, y, [], granted, s, e);
      }
    }
  }

  /** Main result: in every window [s, e] of every run of any number of threads, from any consistent
      state, at most capacity + floor((e - s) / rate) + threads tokens are granted. */
  lemma {:induction false} WindowBound(c: Config, y: System, steps: seq<Step>, s: int, e: int)
    requires c.rate > 0 && Consistent(c, y) && s <= e && |y.threads| >= 1
    ensures GrantedIn(c, y, steps, s, e) <= Bound(c, |y.threads|, s, e)
    decreases |steps|
  {
    if y.clock > e {
      AfterWindow(c, y, steps, s, e);
      assert (e - s) / c.rate >= 0;
    } else if y.clock >= s {
      if Warm(c, y, s) { WarmStart(c, y, 0, s, e); }
      InWindow(c, y, steps, 0, s, e);
    } else if steps == [] {
      assert (e - s) / c.rate >= 0;
    } else {
      StaysConsistent(c, y, steps[0]);
      WindowBound(c, Next(c, y, steps[0]), steps[1..], s, e);
    }
  }

  // ---------------------------------------------------------------- the bound is attained

  lemma {:induction false} GrantedAppend(c: Config, y: System, a: seq<Step>, b: seq<Step>, s: int, e: int)
    requires c.rate > 0
    ensures Run(c, y, a + b) == Run(c, Run(c, y, a), b)
    ensures GrantedIn(c, y, a + b, s, e) == GrantedIn(c, y, a, s, e) + GrantedIn(c, Run(c, y, a), b, s, e)
    decreases |a|
  {
    if a == [] {
      assert a + b == b;
    } else {
      assert (a + b)[0] == a[0] && (a + b)[1..] == a[1..] + b;
      GrantedAppend(c, Next(c, y, a[0]), a[1..], b, s, e);
    }
  }

  /** `k` threads read the clock, one period apart, and stop there. */
  function Readings(c: Config, k: nat): seq<Step> {
    if k == 0 then [] else Readings(c, k - 1) + [Tick(k * c.rate), ReadClock(k - 1)]
  }

  /** The first `k` threads go on with the readings they hold. */
  function Continuations(k: nat): seq<Step> {
    if k == 0 then [] else Continuations(k - 1) + [DoRefill(k - 1), DoTake(k - 1)]
  }

  /** The first thread makes `k` whole calls. */
  function Calls(k: nat): seq<Step> {
    if k == 0 then [] else [ReadClock(0), DoRefill(0), DoTake(0)] + Calls(k - 1)
  }

  /** The threads after the first `k` readings. */
  function AfterReadings(c: Config, k: nat, threads: nat): System
    requires k <= threads
  {
    System(Bucket(c.capacity, 0), k * c.rate, seq(threads, i => if 0 <= i < k then HasRead((i + 1) * c.rate) else Idle))
  }

  lemma {:induction false} TwoSteps(c: Config, y: System, a: Step, b: Step, s: int, e: int)
    requires c.rate > 0
    ensures Run(c, y, [a, b]) == Next(c, Next(c, y, a), b)
    ensures GrantedIn(c, y, [a, b], s, e) == GrantedIn(c, y, [a], s, e) + GrantedIn(c, Next(c, y, a), [b], s, e)
  {
    GrantedAppend(c, y, [a], [b], s, e);
    assert [a] + [b] == [a, b];
    OneStep(c, y, a, s, e);
    OneStep(c, Next(c, y, a), b, s, e);
  }

  lemma {:induction false} OneStep(c: Config, y: System, a: Step, s: int, e: int)
    requires c.rate > 0
    ensures Run(c, y, [a]) == Next(c, y, a)
    ensures GrantedIn(c, y, [a], s, e) == if s <= y.clock <= e && Grants(y, a) then 1 else 0
  {
    assert [a][1..] == [];
  }

  lemma {:induction false} ReadingsRun(c: Config, k: nat, threads: nat)
    requires c.rate > 0 && k <= threads
    ensures Run(c, Start(c, 0, threads), Readings(c, k)) == AfterReadings(c, k, threads)
  {
    if k == 0 {
      assert Start(c, 0, threads).threads == AfterReadings(c, 0, threads).threads;
    } else {
      ReadingsRun(c, k - 1, threads);
      var y := AfterReadings(c, k - 1, threads);
      var tail := [Tick(k * c.rate), ReadClock(k - 1)];
      GrantedAppend(c, Start(c, 0, threads), Readings(c, k - 1), tail, 0, 0);
      TwoSteps(c, y, tail[0], tail[1], 0, 0);
      assert k * c.rate == (k - 1) * c.rate + c.rate;
      assert Next(c, Next(c, y, tail[0]), tail[1]).threads == AfterReadings(c, k, threads).threads;
    }
  }

  /** At time (threads + 1) * rate, the first `k` threads have gone on. */
  function AfterContinuations(c: Config, k: nat, threads: nat): System
    requires k <= threads && c.capacity >= 1
  {
    System(Bucket(if k == 0 then c.capacity else c.capacity - 1, k * c.rate), (threads + 1) * c.rate,
           seq(threads, i => if 0 <= i < k then Idle else HasRead((i + 1) * c.rate)))
  }

  lemma {:induction false} ContinuationsRun(c: Config, k: nat, threads: nat, s: int)
    requires c.rate > 0 && c.capacity >= 1 && k <= threads && s == (threads + 1) * c.rate
    ensures Run(c, AfterContinuations(c, 0, threads), Continuations(k)) == AfterContinuations(c, k, threads)
    ensures GrantedIn(c, AfterContinuations(c, 0, threads), Continuations(k), s, s) == k
  {
    if k > 0 {
      ContinuationsRun(c, k - 1, threads, s);
      var y := AfterContinuations(c, k - 1, threads);
      var tail := [DoRefill(k - 1), DoTake(k - 1)];
      GrantedAppend(c, AfterContinuations(c, 0, threads), Continuations(k - 1), tail, s, s);
      TwoSteps(c, y, tail[0], tail[1], s, s);
      assert k * c.rate == (k - 1) * c.rate + c.rate;
      DivUnique(c.rate, c.rate, 1, 0);
      var z := Next(c, y, tail[0]);
      assert z.bucket == Bucket(c.capacity, k * c.rate);
      OneStep(c, y, tail[0], s, s);
      OneStep(c, z, tail[1], s, s);
      assert Next(c, z, tail[1]).threads == AfterContinuations(c, k, threads).threads;
    }
  }

  /** Whole calls at one time of a bucket that is full, or one token short with one period to go. */
  lemma {:induction false} CallsRun(c: Config, y: System, k: nat, s: int)
    requires c.rate > 0 && y.clock == s && |y.threads| >= 1 && y.threads[0].Idle?
    requires Refilled(c, y.bucket, s).tokens == k
    ensures GrantedIn(c, y, Calls(k), s, s) == k
    decreases k
  {
    if k > 0 {
      var call := [ReadClock(0), DoRefill(0), DoTake(0)];
      var y1 := Next(c, y, ReadClock(0));
      var y2 := Next(c, y1, DoRefill(0));
      var y3 := Next(c, y2, DoTake(0));
      GrantedAppend(c, y, call, Calls(k - 1), s, s);
      GrantedAppend(c, y, [ReadClock(0)], [DoRefill(0), DoTake(0)], s, s);
      assert [ReadClock(0)] + [DoRefill(0), DoTake(0)] == call;
      OneStep(c, y, ReadClock(0), s, s);
      TwoSteps(c, y1, DoRefill(0), DoTake(0), s, s);
      OneStep(c, y1, DoRefill(0), s, s);
      OneStep(c, y2, DoTake(0), s, s);
      CallsRun(c, y3, k - 1, s);
    }
  }

  function WorstRun(c: Config, threads: nat): seq<Step> {
    Readings(c, threads) + ([Tick((threads + 1) * c.rate)] + (Continuations(threads) + Calls(c.capacity)))
  }

  /** The bound is attained, from a fresh bucket, in a window of no length at all. */
  lemma {:induction false} WorstRunGrants(c: Config, threads: nat)
    requires c.rate > 0 && c.capacity >= 1 && threads >= 1
    ensures var s := (threads + 1) * c.rate;
            GrantedIn(c, Start(c, 0, threads), WorstRun(c, threads), s, s) >= c.capacity + threads
  {
    var s := (threads + 1) * c.rate;
    var (y0, y1) := (Start(c, 0, threads), AfterReadings(c, threads, threads));
    var (y2, y3) := (AfterContinuations(c, 0, threads), AfterContinuations(c, threads, threads));
    assert s == threads * c.rate + c.rate;
    ReadingsRun(c, threads, threads);
    var rest := Continuations(threads) + Calls(c.capacity);
    GrantedAppend(c, y0, Readings(c, threads), [Tick(s)] + rest, s, s);
    GrantedAppend(c, y1, [Tick(s)], rest, s, s);
    OneStep(c, y1, Tick(s), s, s);
    assert Next(c, y1, Tick(s)).threads == y2.threads;
    GrantedAppend(c, y2, Continuations(threads), Calls(c.capacity), s, s);
    ContinuationsRun(c, threads, threads, s);
    DivUnique(c.rate, c.rate, 1, 0);
    CallsRun(c, y3, c.capacity, s);
  }

  /** Every run of a fresh bucket stays within the window bound with the given allowance. */
  ghost predicate AllowanceHolds(c: Config, threads: nat, allowance: nat)
    requires c.rate > 0
  {
    forall steps, s, e :: s <= e ==>
      GrantedIn(c, Start(c, 0, threads), steps, s, e) <= c.capacity + (e - s) / c.rate + allowance
  }

  /** Main result: an allowance is enough for every window of every run exactly when it covers the
      number of threads. So the allowance of one is right for one thread and wrong for two. */
  lemma {:induction false} AllowanceExact(c: Config, threads: nat, allowance: nat)
    requires c.rate > 0 && c.capacity >= 1 && threads >= 1
    ensures AllowanceHolds(c, threads, allowance) <==> threads <= allowance
  {
    if threads <= allowance {
      forall steps: seq<Step>, s: int, e: int | s <= e
        ensures GrantedIn(c, Start(c, 0, threads), steps, s, e) <= c.capacity + (e - s) / c.rate + allowance
      {
        WindowBound(c, Start(c, 0, threads), steps, s, e);
      }
    } else {
      var s := (threads + 1) * c.rate;
      WorstRunGrants(c, threads);
      assert (s - s) / c.rate == 0;
      assert !(GrantedIn(c, Start(c, 0, threads), WorstRun(c, threads), s, s) <= c.capacity + (s - s) / c.rate
               + allowance);
    }
  }

  /** A bucket without capacity never grants anything. */
  lemma {:induction false} EmptyBucketGrantsNothing(c: Config, y: System, steps: seq<Step>, s: int, e: int)
    requires c.rate > 0 && c.capacity == 0 && Consistent(c, y)
    ensures GrantedIn(c, y, steps, s, e) == 0
    decreases |steps|
  {
    if steps != [] {
      StaysConsistent(c, y, steps[0]);
      EmptyBucketGrantsNothing(c, Next(c, y, steps[0]), steps[1..], s, e);
    }
  }
}
