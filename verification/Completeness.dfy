/** The completeness check of loaded backtest data and the filter that follows it. A vector the source
    sorts by a name that is unique in it is a map here; parsed end dates and times are milliseconds. */
module Completeness {
  import opened Collections
  import opened Options

  datatype Metadata = Metadata(ticker: string, outcome: Option<string>, endDate: Option<int>)

  /** A snapshot or a trade, as far as the check looks at it. */
  datatype Event = Event(timestamp: int, meta: Option<Metadata>)

  type Key = (string, string)

  /** `representable` says which milliseconds the date library can turn into a date. */
  datatype Config = Config(minSnapshots: nat, maxGapSecs: int, minTrades: nat, representable: int -> bool)

  datatype OutcomeData = OutcomeData(snapshotCount: nat, tradeCount: nat, lastTs: Option<int>, endDate: Option<int>)

  datatype Failure =
    | DataEndsBeforeExpiry(gapSecs: int)
    | InsufficientSnapshots(count: nat, required: nat)
    | InsufficientTrades(count: nat, required: nat)
    | MissingOutcome(outcome: string)

  datatype OutcomeCompleteness = OutcomeCompleteness(data: OutcomeData, isComplete: bool, failureReasons: seq<Failure>)

  datatype MarketCompleteness = MarketCompleteness(
    ticker: string, outcomes: map<string, OutcomeCompleteness>, isComplete: bool, failureReasons: seq<Failure>)

  datatype Report = Report(markets: map<string, MarketCompleteness>, completeCount: nat, incompleteCount: nat)

  // ---------------------------------------------------------------- what the data of an outcome is

  function KeyOf(e: Event): Option<Key> {
    match e.meta
    case None => None
    case Some(m) => Some((m.ticker, m.outcome.UnwrapOr("Unknown")))
  }

  /** The events of one outcome, in order. */
  function Matching(events: seq<Event>, k: Key): (r: seq<Event>)
    ensures forall e :: e in r ==> e.meta.Some?
  {
    if events == [] then [] else
    var init := Matching(events[..|events| - 1], k);
    if KeyOf(events[|events| - 1]) == Some(k) then init + [events[|events| - 1]] else init
  }

  function Later(last: Option<int>, ts: int): int {
    if last.Some? && last.value >= ts then last.value else ts
  }

  function LastTs(events: seq<Event>): (r: Option<int>)
    ensures r.None? <==> events == []
    ensures r.Some? ==> exists i :: 0 <= i < |events| && events[i].timestamp == r.value
    ensures r.Some? ==> forall i :: 0 <= i < |events| ==> events[i].timestamp <= r.value
  {
    if events == [] then None else
    var e := events[|events| - 1];
    Some(Later(LastTs(events[..|events| - 1]), e.timestamp))
  }

  /** What the check must know of an outcome with these snapshots and trades: how many of each, the
      latest snapshot, and the end date of the first event, snapshots before trades. */
  function DataOf(snapshots: seq<Event>, trades: seq<Event>): Option<OutcomeData>
    requires forall e :: e in snapshots + trades ==> e.meta.Some?
  {
    if snapshots + trades == [] then None
    else Some(OutcomeData(|snapshots|, |trades|, LastTs(snapshots), (snapshots + trades)[0].meta.value.endDate))
  }

  function DataAt(snapshots: seq<Event>, trades: seq<Event>, k: Key): Option<OutcomeData> {
    DataOf(Matching(snapshots, k), Matching(trades, k))
  }

  // ---------------------------------------------------------------- checks

  /** Whole seconds, rounded toward zero. */
  function NumSeconds(ms: int): int {
    if ms >= 0 then ms / 1000 else -((-ms) / 1000)
  }

  function GapFailure(c: Config, d: OutcomeData): seq<Failure> {
    match (d.lastTs, d.endDate)
    case (Some(last), Some(end)) =>
      var gap := NumSeconds(end - last);
      if c.representable(last) && gap > c.maxGapSecs then [DataEndsBeforeExpiry(gap)] else []
    case _ => []
  }

  function CheckOutcome(c: Config, d: OutcomeData): (r: OutcomeCompleteness)
    ensures r.isComplete <==> r.failureReasons == []
    ensures r.isComplete ==> d.snapshotCount >= c.minSnapshots && d.tradeCount >= c.minTrades
  {
    var reasons :=
      (if d.snapshotCount < c.minSnapshots then [InsufficientSnapshots(d.snapshotCount, c.minSnapshots)] else []) +
      (if d.tradeCount < c.minTrades then [InsufficientTrades(d.tradeCount, c.minTrades)] else []) +
      GapFailure(c, d);
    OutcomeCompleteness(d, reasons == [], reasons)
  }

  /** An outcome passes exactly when it has enough events and its data reaches close enough to the end
      date; cutting to whole seconds lets a gap of almost a second more pass. */
  lemma {:induction false} PassesExactly(c: Config, d: OutcomeData)
    ensures CheckOutcome(c, d).isComplete <==>
              && d.snapshotCount >= c.minSnapshots && d.tradeCount >= c.minTrades
              && (d.lastTs.Some? && d.endDate.Some? && c.representable(d.lastTs.value) ==>
                    var gap := d.endDate.value - d.lastTs.value;
                    if c.maxGapSecs >= 0 then gap < (c.maxGapSecs + 1) * 1000 else gap <= c.maxGapSecs * 1000)
  {
    if d.lastTs.Some? && d.endDate.Some? {
      var gap := d.endDate.value - d.lastTs.value;
      assert NumSeconds(gap) > c.maxGapSecs <==>
               !(if c.maxGapSecs >= 0 then gap < (c.maxGapSecs + 1) * 1000 else gap <= c.maxGapSecs * 1000);
    }
  }

  /** The reasons name exactly what fails, with the counts found and required and the gap in whole
      seconds, rounded toward zero. */
  lemma {:induction false} ReasonsExactly(c: Config, d: OutcomeData, f: Failure)
    ensures CheckOutcome(c, d).data == d
    ensures f in CheckOutcome(c, d).failureReasons <==>
              match f
              case InsufficientSnapshots(count, required) =>
                count == d.snapshotCount && required == c.minSnapshots && count < required
              case InsufficientTrades(count, required) =>
                count == d.tradeCount && required == c.minTrades && count < required
              case DataEndsBeforeExpiry(gapSecs) =>
                && d.lastTs.Some? && d.endDate.Some? && c.representable(d.lastTs.value) && gapSecs > c.maxGapSecs
                && var gap := d.endDate.value - d.lastTs.value;
                if gap >= 0 then gapSecs * 1000 <= gap < gapSecs * 1000 + 1000
                else gapSecs * 1000 - 1000 < gap <= gapSecs * 1000
              case MissingOutcome(_) => false
  {
  }

  /** What the completeness of a market must be: its outcomes are those with data, it is complete when
      they all are and neither of Up and Down is there without the other, and the reasons name exactly
      what is wrong. */
  ghost predicate IsMarket(c: Config, snapshots: seq<Event>, trades: seq<Event>, t: string, m: MarketCompleteness) {
    && m.ticker == t
    && (forall o :: o in m.outcomes <==> DataAt(snapshots, trades, (t, o)).Some?)
    && (forall o :: o in m.outcomes ==> m.outcomes[o] == CheckOutcome(c, DataAt(snapshots, trades, (t, o)).value))
    && JudgesOutcomes(m)
  }

  predicate Misses(m: MarketCompleteness, f: Failure) {
    f.MissingOutcome? &&
    ((f.outcome == "Up" && "Up" !in m.outcomes && "Down" in m.outcomes) ||
     (f.outcome == "Down" && "Down" !in m.outcomes && "Up" in m.outcomes))
  }

  ghost predicate JudgesOutcomes(m: MarketCompleteness) {
    && (m.isComplete <==> AllComplete(m.outcomes) && ("Up" in m.outcomes <==> "Down" in m.outcomes))
    && (m.isComplete ==> m.failureReasons == [])
    && (forall f :: f in m.failureReasons <==> Misses(m, f) || HasReason(m.outcomes, f))
  }

  ghost predicate HasReason(outcomes: map<string, OutcomeCompleteness>, f: Failure) {
    exists o :: o in outcomes && f in outcomes[o].failureReasons
  }

  predicate AllComplete(outcomes: map<string, OutcomeCompleteness>) {
    forall o :: o in outcomes ==> outcomes[o].isComplete
  }

  ghost predicate AreMarkets(c: Config, snapshots: seq<Event>, trades: seq<Event>,
                             markets: map<string, MarketCompleteness>) {
    forall t :: t in markets ==> IsMarket(c, snapshots, trades, t, markets[t]) && markets[t].outcomes != map[]
  }

  ghost predicate IsReport(c: Config, snapshots: seq<Event>, trades: seq<Event>, r: Report) {
    && AreMarkets(c, snapshots, trades, r.markets)
    && (forall k: Key :: DataAt(snapshots, trades, k).Some? ==> k.0 in r.markets)
    && r.completeCount == |CompleteTickers(r)|
    && r.incompleteCount == |r.markets| - |CompleteTickers(r)|
  }

  function CompleteTickers(r: Report): set<string> {
    set t | t in r.markets && r.markets[t].isComplete
  }

  /** `data` is what the events say, for every outcome. */
  ghost predicate Holds(data: map<Key, OutcomeData>, snapshots: seq<Event>, trades: seq<Event>) {
    forall k: Key :: DataAt(snapshots, trades, k) == if k in data then Some(data[k]) else None
  }

  method CollectSnapshots(snapshots: seq<Event>) returns (data: map<Key, OutcomeData>)
    ensures Holds(data, snapshots, [])
  {
    hide DataAt;
    data := map[];
    NoEvents();
    for i := 0 to |snapshots|
      invariant Holds(data, snapshots[..i], [])
    {
      var s := snapshots[i];
      ghost var before := data;
      match s.meta {
        case None =>
        case Some(meta) =>
          var key := (meta.ticker, meta.outcome.UnwrapOr("Unknown"));
          var d := if key in data then data[key] else OutcomeData(0, 0, None, meta.endDate);
          var last := Later(d.lastTs, s.timestamp);
          data := data[key := d.(snapshotCount := d.snapshotCount + 1, lastTs := Some(last))];
      }
      forall k: Key ensures DataAt(snapshots[..i + 1], [], k) == if k in data then Some(data[k]) else None {
        SnapshotAdded(snapshots[..i], s, k);
        assert snapshots[..i + 1] == snapshots[..i] + [s];
        assert DataAt(snapshots[..i], [], k) == if k in before then Some(before[k]) else None;
      }
    }
    assert snapshots[..|snapshots|] == snapshots;
  }

  lemma {:induction false} MatchingSnoc(events: seq<Event>, e: Event, k: Key)
    ensures Matching(events + [e], k) == Matching(events, k) + if KeyOf(e) == Some(k) then [e] else []
  {
    assert (events + [e])[..|events|] == events;
  }

  lemma {:induction false} NoEvents()
    ensures forall k: Key :: DataAt([], [], k) == None
  {
  }

  lemma {:induction false} NoTrades(k: Key)
    ensures Matching([], k) == []
  {
  }

  lemma {:induction false} LastTsSnoc(events: seq<Event>, e: Event)
    ensures LastTs(events + [e]) == Some(Later(LastTs(events), e.timestamp))
    ensures LastTs([]) == None
  {
    assert (events + [e])[..|events|] == events;
  }

  lemma {:induction false} SnapshotAdded(snapshots: seq<Event>, s: Event, k: Key)
    ensures KeyOf(s) != Some(k) ==> DataAt(snapshots + [s], [], k) == DataAt(snapshots, [], k)
    ensures KeyOf(s) == Some(k) ==>
              var d := DataAt(snapshots, [], k).UnwrapOr(OutcomeData(0, 0, None, s.meta.value.endDate));
              var last := Later(d.lastTs, s.timestamp);
              DataAt(snapshots + [s], [], k) == Some(d.(snapshotCount := d.snapshotCount + 1, lastTs := Some(last)))
  {
    hide Matching, LastTs;
    MatchingSnoc(snapshots, s, k);
    NoTrades(k);
    var before := Matching(snapshots, k);
    assert before + [] == before;
    if KeyOf(s) == Some(k) {
      LastTsSnoc(before, s);
      assert before + [s] + [] == before + [s];
    }
  }

  lemma {:induction false} TradeAdded(snapshots: seq<Event>, trades: seq<Event>, e: Event, k: Key)
    ensures KeyOf(e) != Some(k) ==> DataAt(snapshots, trades + [e], k) == DataAt(snapshots, trades, k)
    ensures KeyOf(e) == Some(k) ==>
              var d := DataAt(snapshots, trades, k).UnwrapOr(OutcomeData(0, 0, None, e.meta.value.endDate));
              DataAt(snapshots, trades + [e], k) == Some(d.(tradeCount := d.tradeCount + 1))
  {
    MatchingSnoc(trades, e, k);
    var (ms, mt) := (Matching(snapshots, k), Matching(trades, k));
    if KeyOf(e) == Some(k) {
      assert ms + (mt + [e]) == (ms + mt) + [e];
    }
  }

  method CollectTrades(snapshots: seq<Event>, trades: seq<Event>, given: map<Key, OutcomeData>)
    returns (data: map<Key, OutcomeData>)
    requires Holds(given, snapshots, [])
    ensures Holds(data, snapshots, trades)
  {
    hide DataAt;
    data := given;
    for i := 0 to |trades|
      invariant Holds(data, snapshots, trades[..i])
    {
      var t := trades[i];
      ghost var before := data;
      match t.meta {
        case None =>
        case Some(meta) =>
          var key := (meta.ticker, meta.outcome.UnwrapOr("Unknown"));
          var d := if key in data then data[key] else OutcomeData(0, 0, None, meta.endDate);
          data := data[key := d.(tradeCount := d.tradeCount + 1)];
      }
      forall k: Key ensures DataAt(snapshots, trades[..i + 1], k) == if k in data then Some(data[k]) else None {
        TradeAdded(snapshots, trades[..i], t, k);
        assert trades[..i + 1] == trades[..i] + [t];
        assert DataAt(snapshots, trades[..i], k) == if k in before then Some(before[k]) else None;
      }
    }
    assert trades[..|trades|] == trades;
  }

  /** The outcomes of a ticker as they were pushed, in any order. */
  type Pushed = seq<(string, OutcomeData)>

  /** `outs` lists the outcomes of `t` among `keys`, each once. */
  ghost predicate Lists(outs: Pushed, data: map<Key, OutcomeData>, keys: set<Key>, t: string) {
    && (forall j :: 0 <= j < |outs| ==>
          (t, outs[j].0) in keys && (t, outs[j].0) in data && data[(t, outs[j].0)] == outs[j].1)
    && (forall i, j :: 0 <= i < j < |outs| ==> outs[i].0 != outs[j].0)
    && (forall k: Key :: k in keys && k.0 == t && k in data ==> (k.1, data[k]) in outs)
  }

  method GroupByTicker(data: map<Key, OutcomeData>) returns (grouped: map<string, Pushed>)
    ensures forall t :: t in grouped ==> grouped[t] != [] && Lists(grouped[t], data, data.Keys, t)
    ensures forall k: Key :: k in data ==> k.0 in grouped
  {
    hide Lists;
    grouped := map[];
    var todo := data.Keys;
    while todo != {}
      invariant todo <= data.Keys
      invariant forall t :: t in grouped ==> grouped[t] != [] && Lists(grouped[t], data, data.Keys - todo, t)
      invariant forall k: Key :: k in data && k !in todo ==> k.0 in grouped
      decreases |todo|
    {
      var k: Key :| k in todo;
      var outs := if k.0 in grouped then grouped[k.0] else [];
      if k.0 !in grouped { NothingListed(data, data.Keys - todo, k.0); }
      PushKeepsLists(outs, data, data.Keys - todo, k, k.0);
      forall t | t in grouped && t != k.0 ensures Lists(grouped[t], data, data.Keys - todo + {k}, t) {
        OthersStayListed(grouped[t], data, data.Keys - todo, k, t);
      }
      grouped := grouped[k.0 := outs + [(k.1, data[k])]];
      assert data.Keys - (todo - {k}) == data.Keys - todo + {k};
      todo := todo - {k};
    }
    assert data.Keys - {} == data.Keys;
  }

  lemma {:induction false} NothingListed(data: map<Key, OutcomeData>, keys: set<Key>, t: string)
    requires forall k: Key :: k in keys ==> k.0 != t
    ensures Lists([], data, keys, t)
  {
  }

  lemma {:induction false} OthersStayListed(outs: Pushed, data: map<Key, OutcomeData>, keys: set<Key>, k: Key,
                                            t: string)
    requires Lists(outs, data, keys, t) && k.0 != t
    ensures Lists(outs, data, keys + {k}, t)
  {
  }

  lemma {:induction false} PushKeepsLists(outs: Pushed, data: map<Key, OutcomeData>, keys: set<Key>, k: Key, t: string)
    requires k in data && k !in keys && k.0 == t
    requires Lists(outs, data, keys, t)
    ensures Lists(outs + [(k.1, data[k])], data, keys + {k}, t)
  {
    var now := outs + [(k.1, data[k])];
    assert k == (t, k.1);
    forall x: Key | x in keys + {k} && x.0 == t && x in data ensures (x.1, data[x]) in now {
      if x == k {
        assert now[|outs|] == (k.1, data[k]);
      } else {
        var j :| 0 <= j < |outs| && outs[j] == (x.1, data[x]);
        assert now[j] == outs[j];
      }
    }
  }

  /** The first `n` outcomes are checked. */
  ghost predicate Checked(c: Config, outs: Pushed, n: nat, outcomes: map<string, OutcomeCompleteness>)
    requires n <= |outs|
  {
    && (forall o :: o in outcomes <==> exists j :: 0 <= j < n && outs[j].0 == o)
    && (forall j :: 0 <= j < n ==> outs[j].0 in outcomes && outcomes[outs[j].0] == CheckOutcome(c, outs[j].1))
  }

  lemma {:induction false} ReasonsAdded(outcomes: map<string, OutcomeCompleteness>, reasons: seq<Failure>, o: string,
                                        r: OutcomeCompleteness)
    requires o !in outcomes && (r.isComplete <==> r.failureReasons == [])
    requires (forall f :: f in reasons <==> HasReason(outcomes, f)) && (reasons == [] <==> AllComplete(outcomes))
    ensures var now := outcomes[o := r];
            && (forall f :: f in reasons + r.failureReasons <==> HasReason(now, f))
            && (reasons + r.failureReasons == [] <==> AllComplete(now))
  {
    var now := outcomes[o := r];
    forall f ensures f in reasons + r.failureReasons <==> HasReason(now, f) {
      if HasReason(outcomes, f) {
        var x :| x in outcomes && f in outcomes[x].failureReasons;
        assert x in now && f in now[x].failureReasons;
      }
      if f in r.failureReasons { assert f in now[o].failureReasons; }
    }
    if AllComplete(now) {
      assert now[o].isComplete;
      forall x | x in outcomes ensures outcomes[x].isComplete { assert now[x] == outcomes[x]; }
    }
  }

  lemma {:induction false} NoReasonsYet()
    ensures (forall f :: !HasReason(map[], f)) && AllComplete(map[])
  {
  }

  /** The completeness of one market, from its outcomes in the order they come. */
  method CheckMarket(c: Config, t: string, outs: Pushed) returns (m: MarketCompleteness)
    requires forall i, j :: 0 <= i < j < |outs| ==> outs[i].0 != outs[j].0
    ensures m.ticker == t && JudgesOutcomes(m) && Checked(c, outs, |outs|, m.outcomes)
  {
    hide CheckOutcome, HasReason, AllComplete;
    var outcomes := map[];
    var reasons: seq<Failure> := [];
    NoReasonsYet();
    for i := 0 to |outs|
      invariant Checked(c, outs, i, outcomes)
      invariant forall f :: f in reasons <==> HasReason(outcomes, f)
      invariant reasons == [] <==> AllComplete(outcomes)
    {
      var checked := CheckOutcome(c, outs[i].1);
      ReasonsAdded(outcomes, reasons, outs[i].0, checked);
      reasons := reasons + checked.failureReasons;
      outcomes := outcomes[outs[i].0 := checked];
    }
    if "Up" in outcomes || "Down" in outcomes {
      if "Up" !in outcomes { reasons := reasons + [MissingOutcome("Up")]; }
      if "Down" !in outcomes { reasons := reasons + [MissingOutcome("Down")]; }
    }
    m := MarketCompleteness(t, outcomes, AllComplete(outcomes) && reasons == [], reasons);
  }

  /** Checks every ticker, in any order. */
  method CheckMarkets(c: Config, ghost snapshots: seq<Event>, ghost trades: seq<Event>,
                      ghost data: map<Key, OutcomeData>, grouped: map<string, Pushed>)
    returns (markets: map<string, MarketCompleteness>)
    requires Holds(data, snapshots, trades)
    requires forall t :: t in grouped ==> grouped[t] != [] && Lists(grouped[t], data, data.Keys, t)
    ensures markets.Keys == grouped.Keys
    ensures AreMarkets(c, snapshots, trades, markets)
  {
    hide DataAt, Holds, IsMarket, Lists, JudgesOutcomes, Checked;
    markets := map[];
    var todo := grouped.Keys;
    while todo != {}
      invariant todo <= grouped.Keys
      invariant markets.Keys == grouped.Keys - todo
      invariant AreMarkets(c, snapshots, trades, markets)
      decreases |todo|
    {
      var t :| t in todo;
      PushedDistinct(grouped[t], data, t);
      var m := CheckMarket(c, t, grouped[t]);
      MarketFromList(c, snapshots, trades, data, t, grouped[t], m);
      markets := markets[t := m];
      todo := todo - {t};
    }
  }

  method Check(c: Config, snapshots: seq<Event>, trades: seq<Event>) returns (report: Report)
    ensures IsReport(c, snapshots, trades, report)
  {
    hide DataAt, Holds, IsMarket, Lists;
    var collected := CollectSnapshots(snapshots);
    var data := CollectTrades(snapshots, trades, collected);
    var grouped := GroupByTicker(data);
    var markets := CheckMarkets(c, snapshots, trades, data, grouped);
    CompleteAreMarkets(markets);
    var complete := set t | t in markets && markets[t].isComplete;
    report := Report(markets, |complete|, |markets| - |complete|);
    assert CompleteTickers(report) == complete;
    CoversData(snapshots, trades, data, markets);
  }

  lemma {:induction false} PushedDistinct(outs: Pushed, data: map<Key, OutcomeData>, t: string)
    requires Lists(outs, data, data.Keys, t)
    ensures forall i, j :: 0 <= i < j < |outs| ==> outs[i].0 != outs[j].0
  {
  }

  lemma {:induction false} CoversData(snapshots: seq<Event>, trades: seq<Event>, data: map<Key, OutcomeData>,
      markets: map<string, MarketCompleteness>)
    requires Holds(data, snapshots, trades)
    requires forall k: Key :: k in data ==> k.0 in markets
    ensures forall k: Key :: DataAt(snapshots, trades, k).Some? ==> k.0 in markets
  {
    hide DataAt;
  }

  lemma {:induction false} CompleteAreMarkets(markets: map<string, MarketCompleteness>)
    ensures |set t | t in markets && markets[t].isComplete| <= |markets|
  {
    SubsetSize((set t | t in markets && markets[t].isComplete), markets.Keys);
  }

  lemma {:induction false} MarketFromList(c: Config, snapshots: seq<Event>, trades: seq<Event>,
                                          data: map<Key, OutcomeData>, t: string, outs: Pushed, m: MarketCompleteness)
    requires Holds(data, snapshots, trades) && outs != [] && Lists(outs, data, data.Keys, t)
    requires m.ticker == t && JudgesOutcomes(m) && Checked(c, outs, |outs|, m.outcomes)
    ensures IsMarket(c, snapshots, trades, t, m) && m.outcomes != map[]
  {
    hide DataAt, CheckOutcome, JudgesOutcomes;
    assert outs[0].0 in m.outcomes;
    forall o
      ensures o in m.outcomes <==> DataAt(snapshots, trades, (t, o)).Some?
      ensures o in m.outcomes ==> m.outcomes[o] == CheckOutcome(c, DataAt(snapshots, trades, (t, o)).value)
    {
      var k: Key := (t, o);
      assert DataAt(snapshots, trades, k) == if k in data then Some(data[k]) else None;
      if o in m.outcomes {
        var j :| 0 <= j < |outs| && outs[j].0 == o;
      }
    }
  }

  // ---------------------------------------------------------------- the filter

  function Kept(events: seq<Event>, tickers: set<string>): seq<Event> {
    if events == [] then [] else
    var init := Kept(events[..|events| - 1], tickers);
    var e := events[|events| - 1];
    if e.meta.Some? && e.meta.value.ticker in tickers then init + [e] else init
  }

  function FilterComplete(snapshots: seq<Event>, trades: seq<Event>, report: Report): (seq<Event>, seq<Event>) {
    (Kept(snapshots, CompleteTickers(report)), Kept(trades, CompleteTickers(report)))
  }

  /** The filter keeps all events of a kept ticker's outcomes, in order, and none of another's. */
  lemma {:induction false} MatchingKept(events: seq<Event>, tickers: set<string>, k: Key)
    ensures Matching(Kept(events, tickers), k) == if k.0 in tickers then Matching(events, k) else []
  {
    if events != [] {
      var e := events[|events| - 1];
      MatchingKept(events[..|events| - 1], tickers, k);
      MatchingSnoc(Kept(events[..|events| - 1], tickers), e, k);
    }
  }

  lemma {:induction false} DataKept(snapshots: seq<Event>, trades: seq<Event>, tickers: set<string>, k: Key)
    ensures DataAt(Kept(snapshots, tickers), Kept(trades, tickers), k)
         == if k.0 in tickers then DataAt(snapshots, trades, k) else None
  {
    MatchingKept(snapshots, tickers, k);
    MatchingKept(trades, tickers, k);
  }

  /** A complete market is determined by the data of its outcomes. */
  lemma {:induction false} SameMarket(c: Config, s1: seq<Event>, t1: seq<Event>, s2: seq<Event>, t2: seq<Event>,
                                      t: string, m1: MarketCompleteness, m2: MarketCompleteness)
    requires IsMarket(c, s1, t1, t, m1) && IsMarket(c, s2, t2, t, m2) && m1.isComplete
    requires forall o :: DataAt(s1, t1, (t, o)) == DataAt(s2, t2, (t, o))
    ensures m1 == m2
  {
    hide DataAt, CheckOutcome;
    assert m1.outcomes.Keys == m2.outcomes.Keys;
    assert m1.outcomes == m2.outcomes;
  }

  /** Main result: filtering is a fixed point. For every input and configuration, whatever reports the
      check gives before and after the filter, the second one holds exactly the complete markets of
      the first one, unchanged down to the counts and dates of each outcome; none is incomplete, and
      filtering again drops nothing. */
  lemma {:induction false} FilterIsFixedPoint(c: Config, snapshots: seq<Event>, trades: seq<Event>, r: Report,
                                              again: Report)
    requires IsReport(c, snapshots, trades, r)
    requires var (s, t) := FilterComplete(snapshots, trades, r); IsReport(c, s, t, again)
    ensures again.markets == map t | t in r.markets && r.markets[t].isComplete :: r.markets[t]
    ensures CompleteTickers(again) == CompleteTickers(r)
    ensures again.completeCount == r.completeCount && again.incompleteCount == 0
    ensures var (s, t) := FilterComplete(snapshots, trades, r); FilterComplete(s, t, again) == (s, t)
  {
    hide IsReport, Kept;
    var tickers := CompleteTickers(r);
    forall t ensures t in again.markets <==> t in tickers
             ensures t in tickers ==> again.markets[t] == r.markets[t] {
      MarketKept(c, snapshots, trades, r, again, t);
    }
    SameTickers(r, again);
    CountsReported(c, snapshots, trades, r);
    CountsReported(c, Kept(snapshots, tickers), Kept(trades, tickers), again);
    KeptTwice(snapshots, tickers);
    KeptTwice(trades, tickers);
  }

  lemma {:induction false} CountsReported(c: Config, snapshots: seq<Event>, trades: seq<Event>, r: Report)
    requires IsReport(c, snapshots, trades, r)
    ensures r.completeCount == |CompleteTickers(r)| && r.incompleteCount == |r.markets| - |CompleteTickers(r)|
  {
    hide DataAt, IsMarket;
  }

  lemma {:induction false} SameTickers(r: Report, again: Report)
    requires forall t :: t in again.markets <==> t in CompleteTickers(r)
    requires forall t :: t in CompleteTickers(r) ==> again.markets[t] == r.markets[t]
    ensures again.markets == map t | t in r.markets && r.markets[t].isComplete :: r.markets[t]
    ensures CompleteTickers(again) == CompleteTickers(r) && |again.markets| == |CompleteTickers(r)|
  {
    var complete := map t | t in r.markets && r.markets[t].isComplete :: r.markets[t];
    assert again.markets.Keys == CompleteTickers(r) == complete.Keys;
    assert again.markets == complete;
    assert CompleteTickers(again) == CompleteTickers(r);
    assert |again.markets| == |again.markets.Keys|;
  }

  lemma {:induction false} Reported(c: Config, snapshots: seq<Event>, trades: seq<Event>, r: Report, t: string)
    requires IsReport(c, snapshots, trades, r)
    ensures t in r.markets <==> exists o :: DataAt(snapshots, trades, (t, o)).Some?
    ensures t in r.markets ==> IsMarket(c, snapshots, trades, t, r.markets[t])
  {
    hide DataAt, CheckOutcome, JudgesOutcomes;
    if t in r.markets {
      assert r.markets[t].outcomes.Keys != {};
      var o :| o in r.markets[t].outcomes;
      assert DataAt(snapshots, trades, (t, o)).Some?;
    } else {
      forall o ensures DataAt(snapshots, trades, (t, o)).None? {
        var k: Key := (t, o);
        assert DataAt(snapshots, trades, k).Some? ==> k.0 in r.markets;
      }
    }
  }

  lemma {:induction false} MarketKept(c: Config, snapshots: seq<Event>, trades: seq<Event>, r: Report, again: Report,
                                      t: string)
    requires IsReport(c, snapshots, trades, r)
    requires var (s, t) := FilterComplete(snapshots, trades, r); IsReport(c, s, t, again)
    ensures t in again.markets <==> t in CompleteTickers(r)
    ensures t in CompleteTickers(r) ==> again.markets[t] == r.markets[t]
  {
    hide DataAt, IsMarket, IsReport, Kept;
    var tickers := CompleteTickers(r);
    var (s, u) := FilterComplete(snapshots, trades, r);
    forall o ensures DataAt(s, u, (t, o)) == if t in tickers then DataAt(snapshots, trades, (t, o)) else None {
      DataKept(snapshots, trades, tickers, (t, o));
    }
    Reported(c, snapshots, trades, r, t);
    Reported(c, s, u, again, t);
    if t in tickers {
      SameMarket(c, snapshots, trades, s, u, t, r.markets[t], again.markets[t]);
    }
  }

  lemma {:induction false} KeptTwice(events: seq<Event>, tickers: set<string>)
    ensures Kept(Kept(events, tickers), tickers) == Kept(events, tickers)
  {
    if events != [] {
      var e := events[|events| - 1];
      var init := Kept(events[..|events| - 1], tickers);
      KeptTwice(events[..|events| - 1], tickers);
      if e.meta.Some? && e.meta.value.ticker in tickers {
        assert (init + [e])[..|init|] == init;
      }
    }
  }

  /** What the filter lets through: every event of a kept ticker as often as it was there, and nothing
      else, not even an event without metadata. */
  lemma {:induction false} KeptExactly(events: seq<Event>, tickers: set<string>, e: Event)
    ensures multiset(Kept(events, tickers))[e] ==
              if e.meta.Some? && e.meta.value.ticker in tickers then multiset(events)[e] else 0
  {
    if events != [] {
      var init, last := events[..|events| - 1], events[|events| - 1];
      assert events == init + [last];
      KeptExactly(init, tickers, e);
    }
  }

  // ---------------------------------------------------------------- the report, on the metadata

  /** An event is about an outcome of a ticker if its metadata says so; a missing outcome is "Unknown". */
  predicate IsAbout(e: Event, ticker: string, outcome: string) {
    && e.meta.Some? && e.meta.value.ticker == ticker
    && (e.meta.value.outcome == Some(outcome) || (e.meta.value.outcome == None && outcome == "Unknown"))
  }

  /** The number of events about an outcome. */
  function HowMany(events: seq<Event>, ticker: string, outcome: string): nat {
    if events == [] then 0
    else
      var last := events[|events| - 1];
      HowMany(events[..|events| - 1], ticker, outcome) + if IsAbout(last, ticker, outcome) then 1 else 0
  }

  /** None are counted exactly if there is none. */
  lemma {:induction false} HowManyNone(events: seq<Event>, ticker: string, outcome: string)
    ensures HowMany(events, ticker, outcome) == 0 <==>
              forall i | 0 <= i < |events| :: !IsAbout(events[i], ticker, outcome)
  {
    if events != [] {
      var init := events[..|events| - 1];
      HowManyNone(init, ticker, outcome);
      assert forall i | 0 <= i < |init| :: init[i] == events[i];
    }
  }

  /** The first event about an outcome. */
  predicate IsFirst(events: seq<Event>, ticker: string, outcome: string, i: int) {
    && 0 <= i < |events| && IsAbout(events[i], ticker, outcome)
    && forall j | 0 <= j < i :: !IsAbout(events[j], ticker, outcome)
  }

  /** `last` is the latest time of the events about an outcome. */
  ghost predicate IsLatest(events: seq<Event>, ticker: string, outcome: string, last: Option<int>) {
    match last
    case None => forall i | 0 <= i < |events| :: !IsAbout(events[i], ticker, outcome)
    case Some(ts) =>
      && (exists i :: 0 <= i < |events| && IsAbout(events[i], ticker, outcome) && events[i].timestamp == ts)
      && (forall i | 0 <= i < |events| && IsAbout(events[i], ticker, outcome) :: events[i].timestamp <= ts)
  }

  lemma {:induction false} KeyIsAbout(e: Event, ticker: string, outcome: string)
    ensures KeyOf(e) == Some((ticker, outcome)) <==> IsAbout(e, ticker, outcome)
  {
  }

  lemma {:induction false} MatchingCounts(events: seq<Event>, ticker: string, outcome: string)
    ensures |Matching(events, (ticker, outcome))| == HowMany(events, ticker, outcome)
    ensures IsLatest(events, ticker, outcome, LastTs(Matching(events, (ticker, outcome))))
  {
    if events != [] {
      var init, last := events[..|events| - 1], events[|events| - 1];
      KeyIsAbout(last, ticker, outcome);
      MatchingCounts(init, ticker, outcome);
      var before := Matching(init, (ticker, outcome));
      if IsAbout(last, ticker, outcome) {
        LastTsSnoc(before, last);
      }
      LatestSnoc(init, last, ticker, outcome, LastTs(before));
      assert init + [last] == events;
    }
  }

  lemma {:induction false} LatestSnoc(init: seq<Event>, e: Event, ticker: string, outcome: string, last: Option<int>)
    requires IsLatest(init, ticker, outcome, last)
    ensures IsLatest(init + [e], ticker, outcome,
                     if IsAbout(e, ticker, outcome) then Some(Later(last, e.timestamp)) else last)
  {
    var all := init + [e];
    assert all[|init|] == e && forall i | 0 <= i < |init| :: all[i] == init[i];
    if last.Some? && !(IsAbout(e, ticker, outcome) && last.value < e.timestamp) {
      var i :| 0 <= i < |init| && IsAbout(init[i], ticker, outcome) && init[i].timestamp == last.value;
      assert IsAbout(all[i], ticker, outcome);
    }
  }

  lemma {:induction false} MatchingFirst(events: seq<Event>, ticker: string, outcome: string, i: nat)
    requires IsFirst(events, ticker, outcome, i)
    ensures Matching(events, (ticker, outcome)) != [] && Matching(events, (ticker, outcome))[0] == events[i]
  {
    var init, last := events[..|events| - 1], events[|events| - 1];
    KeyIsAbout(last, ticker, outcome);
    if i < |init| {
      MatchingFirst(init, ticker, outcome, i);
    } else {
      MatchingCounts(init, ticker, outcome);
    }
  }

  /** Main result: in any report a ticker has an outcome exactly if some snapshot or trade is about it,
      and its data are the numbers of such snapshots and trades, the latest of the snapshots and the
      end date of the first event, snapshots before trades. */
  lemma {:induction false} OutcomesReported(c: Config, snapshots: seq<Event>, trades: seq<Event>, r: Report,
                                            ticker: string, outcome: string)
    requires IsReport(c, snapshots, trades, r)
    ensures var (n, m) := (HowMany(snapshots, ticker, outcome), HowMany(trades, ticker, outcome));
            && (ticker in r.markets && outcome in r.markets[ticker].outcomes <==> n + m > 0)
            && (n + m > 0 <==> exists e :: e in snapshots + trades && IsAbout(e, ticker, outcome))
            && (n + m > 0 ==>
                  var d := r.markets[ticker].outcomes[outcome].data;
                  && r.markets[ticker].outcomes[outcome] == CheckOutcome(c, d)
                  && d.snapshotCount == n && d.tradeCount == m
                  && IsLatest(snapshots, ticker, outcome, d.lastTs)
                  && (forall i | IsFirst(snapshots, ticker, outcome, i) ::
                        d.endDate == snapshots[i].meta.value.endDate)
                  && (n == 0 ==> forall i | IsFirst(trades, ticker, outcome, i) ::
                        d.endDate == trades[i].meta.value.endDate))
  {
    hide CheckOutcome, JudgesOutcomes, Matching, LastTs, IsLatest, HowMany;
    var k: Key := (ticker, outcome);
    MatchingCounts(snapshots, ticker, outcome);
    MatchingCounts(trades, ticker, outcome);
    SomeAbout(snapshots, trades, ticker, outcome);
    assert DataAt(snapshots, trades, k).Some? ==> k.0 in r.markets;
    forall i | IsFirst(snapshots, ticker, outcome, i)
      ensures Matching(snapshots, k) != [] && Matching(snapshots, k)[0] == snapshots[i] {
      MatchingFirst(snapshots, ticker, outcome, i);
    }
    forall i | IsFirst(trades, ticker, outcome, i)
      ensures Matching(trades, k) != [] && Matching(trades, k)[0] == trades[i] {
      MatchingFirst(trades, ticker, outcome, i);
    }
    if DataAt(snapshots, trades, k).Some? {
      CheckedData(c, snapshots, trades, k);
    }
  }

  lemma {:induction false} SomeAbout(snapshots: seq<Event>, trades: seq<Event>, ticker: string, outcome: string)
    ensures HowMany(snapshots, ticker, outcome) + HowMany(trades, ticker, outcome) > 0 <==>
              exists e :: e in snapshots + trades && IsAbout(e, ticker, outcome)
  {
    hide HowMany;
    HowManyNone(snapshots, ticker, outcome);
    HowManyNone(trades, ticker, outcome);
    if i :| 0 <= i < |snapshots| && IsAbout(snapshots[i], ticker, outcome) {
      assert snapshots[i] in snapshots + trades;
    }
    if i :| 0 <= i < |trades| && IsAbout(trades[i], ticker, outcome) {
      assert trades[i] in snapshots + trades;
    }
  }

  lemma {:induction false} CheckedData(c: Config, snapshots: seq<Event>, trades: seq<Event>, k: Key)
    requires DataAt(snapshots, trades, k).Some?
    ensures var d := DataAt(snapshots, trades, k).value; CheckOutcome(c, d).data == d
  {
    hide DataAt;
  }

  /** Whether there is anything about an outcome. */
  predicate HasOutcome(snapshots: seq<Event>, trades: seq<Event>, ticker: string, outcome: string) {
    HowMany(snapshots, ticker, outcome) + HowMany(trades, ticker, outcome) > 0
  }

  /** What every checked outcome looks like: it passes exactly without reasons, and none of its reasons
      is about another outcome. */
  predicate SoundOutcome(o: OutcomeCompleteness) {
    (o.isComplete <==> o.failureReasons == []) && forall f | f in o.failureReasons :: !f.MissingOutcome?
  }

  lemma {:induction false} CheckedIsSound(c: Config, d: OutcomeData)
    ensures SoundOutcome(CheckOutcome(c, d))
  {
    forall f | f in CheckOutcome(c, d).failureReasons ensures !f.MissingOutcome? {
      ReasonsExactly(c, d, f);
    }
  }

  lemma {:induction false} ReasonsPassedOn(m: MarketCompleteness, o: string, f: Failure)
    requires JudgesOutcomes(m) && o in m.outcomes && f in m.outcomes[o].failureReasons
    ensures f in m.failureReasons
  {
    assert HasReason(m.outcomes, f);
  }

  lemma {:induction false} MissingNamed(m: MarketCompleteness, f: Failure)
    requires JudgesOutcomes(m) && f.MissingOutcome? && forall o | o in m.outcomes :: SoundOutcome(m.outcomes[o])
    ensures f in m.failureReasons <==> Misses(m, f)
  {
  }

  lemma {:induction false} OutcomesSound(c: Config, snapshots: seq<Event>, trades: seq<Event>, t: string,
                                         m: MarketCompleteness)
    requires IsMarket(c, snapshots, trades, t, m)
    ensures forall o | o in m.outcomes :: SoundOutcome(m.outcomes[o])
  {
    hide DataAt, CheckOutcome, SoundOutcome;
    forall o | o in m.outcomes ensures SoundOutcome(m.outcomes[o]) {
      CheckedIsSound(c, DataAt(snapshots, trades, (t, o)).value);
    }
  }

  /** Main result: in any report a market is complete exactly if all its outcomes pass and it has both
      Up and Down or neither; the one that is missing is named, and so is every reason of an outcome. */
  lemma {:induction false} MarketsJudged(c: Config, snapshots: seq<Event>, trades: seq<Event>, r: Report,
                                         ticker: string)
    requires IsReport(c, snapshots, trades, r)
    ensures ticker in r.markets ==>
              var m := r.markets[ticker];
              var up := HasOutcome(snapshots, trades, ticker, "Up");
              var down := HasOutcome(snapshots, trades, ticker, "Down");
              && (m.isComplete <==> (forall o | o in m.outcomes :: m.outcomes[o].failureReasons == []) && up == down)
              && (MissingOutcome("Up") in m.failureReasons <==> down && !up)
              && (MissingOutcome("Down") in m.failureReasons <==> up && !down)
              && forall o, f | o in m.outcomes && f in m.outcomes[o].failureReasons :: f in m.failureReasons
  {
    OutcomesReported(c, snapshots, trades, r, ticker, "Up");
    OutcomesReported(c, snapshots, trades, r, ticker, "Down");
    if ticker in r.markets {
      var m := r.markets[ticker];
      OutcomesSound(c, snapshots, trades, ticker, m);
      MissingNamed(m, MissingOutcome("Up"));
      MissingNamed(m, MissingOutcome("Down"));
      JudgedComplete(m);
      hide HowMany, DataAt, IsReport, IsMarket, JudgesOutcomes, SoundOutcome;
      forall o, f | o in m.outcomes && f in m.outcomes[o].failureReasons ensures f in m.failureReasons {
        ReasonsPassedOn(m, o, f);
      }
    }
  }

  lemma {:induction false} JudgedComplete(m: MarketCompleteness)
    requires JudgesOutcomes(m) && forall o | o in m.outcomes :: SoundOutcome(m.outcomes[o])
    ensures m.isComplete <==>
              && (forall o | o in m.outcomes :: m.outcomes[o].failureReasons == [])
              && ("Up" in m.outcomes <==> "Down" in m.outcomes)
  {
    hide HasReason, Misses;
  }
}
