/** The eager timeline: every snapshot opens a tick that collects the trades and spot prices up
    to the next snapshot. */
module Timeline {
  import opened Collections
  import opened Options
  import opened MarketData
  import opened StableSort

  datatype Tick = Tick(snapshot: Snapshot, trades: seq<Trade>, spots: seq<Spot>)

  const I64_MAX: int := 0x7FFF_FFFF_FFFF_FFFF

  /** The number of leading elements before time `t`. */
  function Cut<T>(s: seq<T>, key: T -> int, t: int): (n: nat)
    ensures n <= |s|
  {
    if s != [] && key(s[0]) < t then 1 + Cut(s[1..], key, t) else 0
  }

  /** In a sorted list the cut separates what is before `t` from what is not. */
  lemma {:induction false} CutSplits<T>(s: seq<T>, key: T -> int, t: int)
    requires Sorted(s, key)
    ensures forall j | 0 <= j < |s| :: j < Cut(s, key, t) <==> key(s[j]) < t
  {
    if s != [] {
      CutSplits(s[1..], key, t);
      forall j | 0 <= j < |s| ensures j < Cut(s, key, t) <==> key(s[j]) < t {
        if j > 0 {
          assert s[j] == s[1..][j - 1];
          assert key(s[0]) <= key(s[j]);
        }
      }
    }
  }

  lemma {:induction false} CutMonotone<T>(s: seq<T>, key: T -> int, t: int, t': int)
    requires t <= t'
    ensures Cut(s, key, t) <= Cut(s, key, t')
  {
    if s != [] && key(s[0]) < t {
      CutMonotone(s[1..], key, t, t');
    }
  }

  /** Where tick `i` starts among sorted items; what is early belongs to tick 0. */
  function From<T>(starts: seq<int>, items: seq<T>, key: T -> int, i: nat): (n: nat)
    requires i <= |starts|
    ensures n <= |items|
  {
    if i == 0 then 0 else if i == |starts| then |items| else Cut(items, key, starts[i])
  }

  ghost predicate Ascending(starts: seq<int>) {
    forall a, b | 0 <= a < b < |starts| :: starts[a] <= starts[b]
  }

  lemma {:induction false} FromMonotone<T>(starts: seq<int>, items: seq<T>, key: T -> int, i: nat)
    requires Ascending(starts) && Sorted(items, key) && i < |starts|
    ensures From(starts, items, key, i) <= From(starts, items, key, i + 1)
  {
    if 0 < i && i + 1 < |starts| {
      CutMonotone(items, key, starts[i], starts[i + 1]);
    }
  }

  /** The items of tick `i`. */
  function Share<T>(starts: seq<int>, items: seq<T>, key: T -> int, i: nat): seq<T>
    requires i < |starts|
  {
    var (a, b) := (From(starts, items, key, i), From(starts, items, key, i + 1));
    if a <= b then items[a..b] else []
  }

  /** The tick an item of time `t` belongs to: the last one that starts at `t` or before, or the
      first one if there is none. */
  ghost predicate Owns(starts: seq<int>, i: int, t: int)
    requires 0 <= i < |starts|
  {
    && (i == 0 || starts[i] <= t)
    && (i + 1 < |starts| ==> t < starts[i + 1])
  }

  lemma {:induction false} ShareOwned<T>(starts: seq<int>, items: seq<T>, key: T -> int, i: nat)
    requires Ascending(starts) && Sorted(items, key) && i < |starts|
    ensures forall x | x in Share(starts, items, key, i) :: x in items && Owns(starts, i, key(x))
  {
    CutSplits(items, key, starts[i]);
    if i + 1 < |starts| { CutSplits(items, key, starts[i + 1]); }
  }

  /** No tick but one owns a time. */
  lemma {:induction false} OwnerUnique(starts: seq<int>, i: int, j: int, t: int)
    requires Ascending(starts) && 0 <= i < |starts| && 0 <= j < |starts|
    requires Owns(starts, i, t) && Owns(starts, j, t)
    ensures i == j
  {
    OwnerLast(starts, i, t);
    OwnerLast(starts, j, t);
  }

  lemma {:induction false} OwnerLast(starts: seq<int>, i: int, t: int)
    requires Ascending(starts) && 0 <= i < |starts| && Owns(starts, i, t)
    ensures forall k | i < k < |starts| :: starts[k] > t
  {
    forall k | i < k < |starts| ensures starts[k] > t {
      assert starts[i + 1] <= starts[k];
    }
  }

  function Shares<T>(starts: seq<int>, items: seq<T>, key: T -> int): seq<seq<T>> {
    seq(|starts|, i requires 0 <= i < |starts| => Share(starts, items, key, i))
  }

  /** The shares are `items` cut into ticks: nothing is lost, repeated or reordered, and every item
      sits in the tick that owns it. */
  ghost predicate Partitioned<T>(starts: seq<int>, shares: seq<seq<T>>, items: seq<T>, key: T -> int) {
    && |shares| == |starts|
    && Flatten(shares) == items
    && forall i, x | 0 <= i < |starts| && x in shares[i] :: Owns(starts, i, key(x))
  }

  lemma {:induction false} SharesPartition<T>(starts: seq<int>, items: seq<T>, key: T -> int)
    requires Ascending(starts) && Sorted(items, key) && starts != []
    ensures Partitioned(starts, Shares(starts, items, key), items, key)
  {
    SharesPrefix(starts, items, key, |starts|);
    assert Shares(starts, items, key)[..|starts|] == Shares(starts, items, key);
    forall i, x | 0 <= i < |starts| && x in Shares(starts, items, key)[i] ensures Owns(starts, i, key(x)) {
      ShareOwned(starts, items, key, i);
    }
  }

  lemma {:induction false} SharesPrefix<T>(starts: seq<int>, items: seq<T>, key: T -> int, n: nat)
    requires Ascending(starts) && Sorted(items, key) && n <= |starts|
    ensures Flatten(Shares(starts, items, key)[..n]) == items[..From(starts, items, key, n)]
  {
    if n > 0 {
      var shares := Shares(starts, items, key);
      SharesPrefix(starts, items, key, n - 1);
      FromMonotone(starts, items, key, n - 1);
      FlattenSnoc(shares[..n - 1], shares[n - 1]);
      assert shares[..n] == shares[..n - 1] + [shares[n - 1]];
    }
  }

  /** Takes the items of one tick from position `p` on. */
  method TakeTick<T>(items: seq<T>, key: T -> int, p: nat, current: int, next: int, early: bool) returns (p': nat)
    requires Sorted(items, key) && p <= Cut(items, key, next)
    requires early || forall j | p <= j < |items| :: key(items[j]) >= current
    ensures p' == Cut(items, key, next)
  {
    p' := p;
    CutSplits(items, key, next);
    while p' < |items| && (early || key(items[p']) >= current) && key(items[p']) < next
      invariant p <= p' <= Cut(items, key, next)
    {
      p' := p' + 1;
    }
  }

  lemma {:induction false} LastShare<T>(starts: seq<int>, items: seq<T>, key: T -> int, p: nat)
    requires starts != [] && From(starts, items, key, |starts| - 1) <= p <= |items|
    ensures items[From(starts, items, key, |starts| - 1)..p] + items[p..] == Share(starts, items, key, |starts| - 1)
  {
  }

  /** Puts sorted items into their ticks. `early` says whether the first tick also takes items
      from before its start; without it there must be none. */
  method Distribute<T>(starts: seq<int>, items: seq<T>, key: T -> int, early: bool) returns (shares: seq<seq<T>>)
    requires starts != [] && Ascending(starts) && starts[|starts| - 1] <= I64_MAX
    requires Sorted(items, key)
    requires early || forall x | x in items :: starts[0] <= key(x)
    ensures shares == Shares(starts, items, key)
  {
    hide Cut;
    shares := [];
    var p := 0;
    var i := 0;
    while i < |starts|
      invariant 0 <= i <= |starts| && |shares| == i
      invariant i < |starts| ==> p == From(starts, items, key, i)
      invariant forall j | 0 <= j < i && j + 1 < |starts| :: shares[j] == Share(starts, items, key, j)
      invariant i == |starts| ==> From(starts, items, key, i - 1) <= p <= |items|
                                  && shares[i - 1] == items[From(starts, items, key, i - 1)..p]
    {
      var next := if i + 1 < |starts| then starts[i + 1] else I64_MAX;
      CutSplits(items, key, starts[i]);
      CutMonotone(items, key, starts[i], next);
      var p' := TakeTick(items, key, p, starts[i], next, early && i == 0);
      shares := shares + [items[p..p']];
      p := p';
      i := i + 1;
    }
    // anything left goes to the last tick
    var last := |shares| - 1;
    LastShare(starts, items, key, p);
    shares := shares[..last] + [shares[last] + items[p..]];
  }

  // ---------------------------------------------------------------- the timeline

  function StartsOf(snapshots: seq<Snapshot>): seq<int> {
    seq(|snapshots|, i requires 0 <= i < |snapshots| => snapshots[i].ts)
  }

  /** The sorted trades without those before the first snapshot. */
  function KeptTrades(trades: seq<Trade>, first: int): seq<Trade> {
    var sorted := Sort(trades, TradeTs);
    sorted[Cut(sorted, TradeTs, first)..]
  }

  function SortedSpots(spots: Option<seq<Spot>>): seq<Spot> {
    if spots.Some? then Sort(spots.value, SpotTs) else []
  }

  function Assemble(sn: seq<Snapshot>, trades: seq<seq<Trade>>, spots: seq<seq<Spot>>): seq<Tick>
    requires |sn| == |trades| == |spots|
  {
    seq(|sn|, i requires 0 <= i < |sn| => Tick(sn[i], trades[i], spots[i]))
  }

  /** The ticks of a timeline: one for every snapshot in order, with its share of the rest. */
  function TicksOf(snapshots: seq<Snapshot>, trades: seq<Trade>, spots: Option<seq<Spot>>): seq<Tick>
    requires snapshots != []
  {
    var sn := Sort(snapshots, SnapshotTs);
    SortLength(snapshots, SnapshotTs);
    var starts := StartsOf(sn);
    Assemble(sn, Shares(starts, KeptTrades(trades, starts[0]), TradeTs), Shares(starts, SortedSpots(spots), SpotTs))
  }

  method KeepTrades(trades: seq<Trade>, first: int) returns (kept: seq<Trade>)
    ensures kept == KeptTrades(trades, first)
  {
    var sorted := Sort(trades, TradeTs);
    SortCorrect(trades, TradeTs);
    CutSplits(sorted, TradeTs, first);
    var discarded := 0;
    while discarded < |sorted| && sorted[discarded].ts < first
      invariant 0 <= discarded <= Cut(sorted, TradeTs, first)
    {
      assert TradeTs(sorted[discarded]) < first;
      discarded := discarded + 1;
    }
    assert discarded < |sorted| ==> TradeTs(sorted[discarded]) >= first;
    return sorted[discarded..];
  }

  /** Builds the ticks; None stands for the error on empty snapshots. */
  method BuildTicks(snapshots: seq<Snapshot>, trades: seq<Trade>, spots: Option<seq<Spot>>)
    returns (r: Option<seq<Tick>>)
    requires forall s | s in snapshots :: s.ts <= I64_MAX
    ensures snapshots == [] ==> r == None
    ensures snapshots != [] ==> r == Some(TicksOf(snapshots, trades, spots))
  {
    if snapshots == [] {
      return None;
    }
    var sn := Sort(snapshots, SnapshotTs);
    SortLength(snapshots, SnapshotTs);
    SortedStarts(snapshots);
    var starts := StartsOf(sn);
    assert sn[|sn| - 1] in snapshots;
    var kept := KeepTrades(trades, starts[0]);
    KeptSorted(trades, starts[0]);
    var tradeShares := Distribute(starts, kept, TradeTs, false);
    var sortedSpots := SortedSpots(spots);
    if spots.Some? { SortCorrect(spots.value, SpotTs); }
    var spotShares := Distribute(starts, sortedSpots, SpotTs, true);
    r := Some(Assemble(sn, tradeShares, spotShares));
  }

  lemma {:induction false} SortedStarts(snapshots: seq<Snapshot>)
    requires snapshots != []
    ensures var sn := Sort(snapshots, SnapshotTs);
            && |sn| > 0 && Ascending(StartsOf(sn))
            && forall i | 0 <= i < |sn| :: sn[i] in snapshots && StartsOf(sn)[0] <= sn[i].ts
  {
    var sn := Sort(snapshots, SnapshotTs);
    SortCorrect(snapshots, SnapshotTs);
    SortMembers(snapshots, SnapshotTs);
    SortLength(snapshots, SnapshotTs);
    forall a, b | 0 <= a < b < |sn| ensures StartsOf(sn)[a] <= StartsOf(sn)[b] {
      assert SnapshotTs(sn[a]) <= SnapshotTs(sn[b]);
    }
  }

  /** The trades not before `first`, as given. */
  function NotBefore(trades: seq<Trade>, first: int): seq<Trade> {
    if trades == [] then []
    else (if trades[0].ts >= first then [trades[0]] else []) + NotBefore(trades[1..], first)
  }

  lemma {:induction false} NotBeforeBucket(trades: seq<Trade>, first: int, k: int)
    ensures Bucket(NotBefore(trades, first), TradeTs, k) == if k >= first then Bucket(trades, TradeTs, k) else []
  {
    if trades != [] {
      NotBeforeBucket(trades[1..], first, k);
      var head := if trades[0].ts >= first then [trades[0]] else [];
      BucketConcat(head, NotBefore(trades[1..], first), TradeTs, k);
    }
  }

  /** Cutting the sorted trades is the same as sorting the trades that are not too early. */
  lemma {:induction false} KeptIsSort(trades: seq<Trade>, first: int)
    ensures KeptTrades(trades, first) == Sort(NotBefore(trades, first), TradeTs)
  {
    hide Cut;
    var sorted := Sort(trades, TradeTs);
    var n := Cut(sorted, TradeTs, first);
    var early, kept := sorted[..n], sorted[n..];
    SortCorrect(trades, TradeTs);
    CutSplits(sorted, TradeTs, first);
    forall k ensures Bucket(kept, TradeTs, k) == Bucket(NotBefore(trades, first), TradeTs, k) {
      assert sorted == early + kept;
      BucketConcat(early, kept, TradeTs, k);
      NotBeforeBucket(trades, first, k);
      if k >= first {
        BucketEmpty(early, TradeTs, k);
      } else {
        BucketEmpty(kept, TradeTs, k);
      }
    }
    SortUnique(NotBefore(trades, first), kept, TradeTs);
  }

  /** What is kept is sorted, not before the first snapshot, and misses nothing that is not. */
  lemma {:induction false} KeptSorted(trades: seq<Trade>, first: int)
    ensures var kept := KeptTrades(trades, first);
            && Sorted(kept, TradeTs)
            && forall t :: t in kept <==> t in trades && first <= t.ts
  {
    var sorted := Sort(trades, TradeTs);
    SortCorrect(trades, TradeTs);
    SortMembers(trades, TradeTs);
    CutSplits(sorted, TradeTs, first);
    var kept := KeptTrades(trades, first);
    var n := Cut(sorted, TradeTs, first);
    forall t ensures t in kept <==> t in trades && first <= t.ts {
      if t in kept {
        var j :| 0 <= j < |kept| && kept[j] == t;
        assert sorted[n + j] == t;
      }
      if t in trades && first <= t.ts {
        assert t in sorted;
        var j :| 0 <= j < |sorted| && sorted[j] == t;
        assert kept[j - n] == t;
      }
    }
  }

  function TradesOf(ticks: seq<Tick>): seq<seq<Trade>> {
    seq(|ticks|, i requires 0 <= i < |ticks| => ticks[i].trades)
  }

  function SpotsOf(ticks: seq<Tick>): seq<seq<Spot>> {
    seq(|ticks|, i requires 0 <= i < |ticks| => ticks[i].spots)
  }

  lemma {:induction false} AssembleParts(sn: seq<Snapshot>, trades: seq<seq<Trade>>, spots: seq<seq<Spot>>)
    requires |sn| == |trades| == |spots|
    ensures TradesOf(Assemble(sn, trades, spots)) == trades && SpotsOf(Assemble(sn, trades, spots)) == spots
    ensures forall i | 0 <= i < |sn| :: Assemble(sn, trades, spots)[i].snapshot == sn[i]
  {
  }

  /** The timeline is a partition of the sorted trades not before the first snapshot and of all
      sorted spot prices, with one tick for every snapshot in order. */
  lemma {:induction false} TimelinePartition(snapshots: seq<Snapshot>, trades: seq<Trade>, spots: Option<seq<Spot>>)
    requires snapshots != []
    ensures var ticks := TicksOf(snapshots, trades, spots);
            var sn := Sort(snapshots, SnapshotTs);
            var starts := StartsOf(sn);
            && |ticks| == |snapshots| == |sn| && Ascending(starts)
            && (forall i | 0 <= i < |ticks| :: ticks[i].snapshot == sn[i])
            && Partitioned(starts, TradesOf(ticks), KeptTrades(trades, starts[0]), TradeTs)
            && Partitioned(starts, SpotsOf(ticks), SortedSpots(spots), SpotTs)
  {
    var sn := Sort(snapshots, SnapshotTs);
    var starts := StartsOf(sn);
    SortedStarts(snapshots);
    SortLength(snapshots, SnapshotTs);
    var kept, sorted := KeptTrades(trades, starts[0]), SortedSpots(spots);
    assert Sorted(kept, TradeTs) by { KeptSorted(trades, starts[0]); }
    assert Sorted(sorted, SpotTs) by { if spots.Some? { SortCorrect(spots.value, SpotTs); } }
    SharesPartition(starts, kept, TradeTs);
    SharesPartition(starts, sorted, SpotTs);
    AssembleParts(sn, Shares(starts, kept, TradeTs), Shares(starts, sorted, SpotTs));
  }

  class BacktestTimeline {
    const ticks: seq<Tick>
    var currentIndex: nat

    constructor (ticks: seq<Tick>)
      ensures this.ticks == ticks && currentIndex == 0
    {
      this.ticks := ticks;
      currentIndex := 0;
    }

    function Peek(): Option<Tick>
      reads this
    {
      if currentIndex < |ticks| then Some(ticks[currentIndex]) else None
    }

    method NextTick() returns (r: Option<Tick>)
      modifies this
      ensures r == old(Peek())
      ensures currentIndex == if r.Some? then old(currentIndex) + 1 else old(currentIndex)
    {
      if currentIndex < |ticks| {
        r := Some(ticks[currentIndex]);
        currentIndex := currentIndex + 1;
      } else {
        r := None;
      }
    }
  }
}
