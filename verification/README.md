# Backtest replay, order book, framing, order amounts and rate limiting

A Dafny model of the parts of the trading repository that decide what a strategy sees and what an
order costs, with proofs of what they promise.

- **Event sequencing.** `Coordinator` is the streaming backtest coordinator, a lazy merge of timers,
  trades, spot prices, snapshots and updates with a caller's queue in front; `CoordinatorRuns` and
  `CoordinatorQueue` prove what whole runs of it deliver,
  `TimelineQueue` the same of interleaved calls in timeline mode. `SnapshotMerge` relates the three ways
  the snapshot/update merge is written. `Timeline` and `TimelineCoordinator` are the tick-by-tick mode.
  `TimelineTimers` is about its timers and clock.
  `MarketData` holds the events and the order-book tracker, `Tracking` what the tracker remembers,
  `StableSort` the eager reference.
- **Order book and feed.** `OrderBook` is the depth-limited book, `BookRuns` compares its runs with an
  unbounded book, `BookFeed` and `FeedRuns` are the websocket feed, `FeedEffects` what its messages
  leave in a book. `Prices` is the fixed-point conversion.
- **Liquidity and amounts.** `Walk` is the greedy walk over levels, `MarketOrders` market impact and the
  fill engine on top of it, `OrderAmounts` the rounding of maker and taker amounts.
- **Framing.** `Framer` cuts a byte stream into objects, `FrameEnds` says where on any bytes,
  `JsonFraming` shows that it recovers printed JSON (sections 2 and 4 to 7 of RFC 8259).
- **Rate limit and completeness.** `TokenBucket` and `Completeness`.
- `Options`, `Collections` and `Arithmetic` are shared helpers.

Code that changes state is a class or a method with loops here, proved against functions on values;
the results about whole runs are lemmas about those functions. Times are integers (milliseconds;
nanoseconds in the token bucket). Decimals are exact: reals where only the value matters, pairs of
units and scale in `OrderAmounts`, where the code looks at scales.

## What is not as one might expect

- The best level of a trimmed book need not be the best on offer once levels are removed
  (`BookRuns.FrontierNeeded`). It is exactly when it is better than every lost price, one a trim has
  dropped and no accepted delta has named since (`BookRuns.BestExact`); `BookRuns.TopExact` says the
  same of the whole side. While nothing is removed both always hold (`BookRuns.NoRemovalsTheorem`).
- The early return of `apply_updates_to_snapshots` skips sorting; it agrees with the merge exactly for
  snapshots already in order (`SnapshotMerge.EarlyReturnExact`).
- A refill uses a clock reading made before its lock is taken, and the take is a step of its own. So a
  token bucket shared by several threads can grant more than capacity + floor((e - s) / rate) + 1 in a
  window; the exact allowance is the number of threads (`TokenBucket.AllowanceExact`).
- The framer recovers objects only; arrays and scalars at top level are not frames of their own
  (`JsonFraming.OnlyObjectsAreFrames`).
- A price that would round to 0 ticks becomes 1 (`Prices.PriceWithinHalfTick`).
- Cutting the gap to whole seconds lets almost one second more than the configured gap pass
  (`Completeness.PassesExactly`).

## Model

| member | source | states |
|---|---|---|
| `MarketData.OrderbookTracker.ApplySnapshot` | crates/trade-server/src/orderbook_tracker/mod.rs:216-250 | a snapshot replaces the tracked book of its asset and yields itself |
| `MarketData.OrderbookTracker.ApplyUpdate` | crates/trade-server/src/orderbook_tracker/mod.rs:66-120 | an update changes and yields the tracked book of its asset, and changes and yields nothing when the asset has none |
| `Tracking.TrackedBook` | crates/trade-server/src/orderbook_tracker/mod.rs:66-250 | main result: after any inputs the tracker has a book for an asset exactly if it had a snapshot, and it is the last snapshot book with every later update of that asset applied in order |
| `Tracking.YieldedBooks` | crates/trade-server/src/orderbook_tracker/mod.rs:66-250 | main result: each input yields its snapshot, or for an update all updates of its asset since the last snapshot applied up to itself, with its own time and hash; before any snapshot nothing |
| `Tracking.OtherAssetsApart` | crates/trade-server/src/orderbook_tracker/mod.rs:66-250 | an input of another asset leaves the book of this one as it is |
| `StableSort.SortCorrect` | crates/trade-server/src/backtest/coordinator.rs:178-183 | the sort is sorted by key and keeps the input order among equal keys |
| `StableSort.SortedBucketsDetermine` | crates/trade-server/src/backtest/coordinator.rs:178-183 | no other result is possible: sorted and order-preserving inside every key fixes the sequence |
| `StableSort.SortHead` | crates/trade-server/src/backtest/coordinator.rs:430-478 | the head rule of every lazy merge: what is strictly before all that is in front of it and not after what is behind it is the head of the stable sort |
| `Coordinator.StreamingCoordinator.NewFromData` | crates/trade-server/src/backtest/coordinator.rs:171-218 | the constructed state is the four sorted streams with timers from the first snapshot to the last snapshot or update |
| `Coordinator.StreamingCoordinator.PopNextOrderbookInput` | crates/trade-server/src/backtest/coordinator.rs:220-243 | pops the earlier of the two book streams, the snapshot on a tie |
| `Coordinator.StreamingCoordinator.EnqueueEvent` | crates/trade-server/src/backtest/coordinator.rs:291-299 | appends to the queue and changes nothing else |
| `Coordinator.StreamingCoordinator.TakeTurn` | crates/trade-server/src/backtest/coordinator.rs:430-538 | one turn of the loop, result and new state, is the turn function the results on turns are about |
| `Coordinator.StreamingCoordinator.NextEvent` | crates/trade-server/src/backtest/coordinator.rs:430-538 | the loop of turns computes the transition function the run results below are about, result and new state |
| `CoordinatorRuns.LoopBodyValid` | crates/trade-server/src/backtest/coordinator.rs:430-538 | every turn keeps the streams sorted, data pending for as long as a timer is due, and exhaustion only without data |
| `CoordinatorRuns.NextValid` | crates/trade-server/src/backtest/coordinator.rs:430-538 | every call keeps the invariant and uses up data or a timer unless it reports the end, so draining terminates |
| `CoordinatorRuns.DrainIsEager` | crates/trade-server/src/backtest/coordinator.rs:430-538 | from any reachable state with an empty queue, draining delivers the stable sort of what is left |
| `CoordinatorRuns.DeliversStableSort` | crates/trade-server/src/backtest/coordinator.rs:171-218 | main result: for every tracker and all data with a snapshot, draining delivers exactly the stable sort by time, then timer, trade, spot price, snapshot, update, of the timer grid, the trades not before the first snapshot, all spot prices, all snapshots and the seeded updates |
| `CoordinatorRuns.InitSpan` | crates/trade-server/src/backtest/coordinator.rs:185-203 | timers run from the least snapshot time to the greatest time of a snapshot or update |
| `CoordinatorRuns.TimesNeverGoBack` | crates/trade-server/src/backtest/coordinator.rs:430-538 | the times of delivered events never decrease |
| `CoordinatorRuns.TimerGrid` | crates/trade-server/src/backtest/coordinator.rs:44-60 | exactly floor((end - start) / interval) + 1 timers are delivered, the k-th at start + k * interval |
| `CoordinatorRuns.NextClock` | crates/trade-server/src/backtest/coordinator.rs:430-538 | every market event and timer sets the clock to its own time and nothing else moves it |
| `CoordinatorQueue.QueueIsFifo` | crates/trade-server/src/backtest/coordinator.rs:430-440 | in streaming mode, over any interleaving of enqueues and calls, events delivered from the queue followed by those still in it are those enqueued, in order |
| `CoordinatorQueue.MarketUnaffected` | crates/trade-server/src/backtest/coordinator.rs:430-461 | over any interleaving, the market and timer events delivered, followed by those still to come, are those of the run without enqueues |
| `CoordinatorQueue.DeliveredBeforeTheEnd` | crates/trade-server/src/backtest/coordinator.rs:454-461 | at the call that first reports the end, everything enqueued before and the whole market have been delivered |
| `CoordinatorQueue.EndIsAbsorbing` | crates/trade-server/src/backtest/coordinator.rs:430-434 | after the end every call reports the end, whatever is enqueued, and the market state no longer changes |
| `SnapshotMerge.MergedOfSorted` | crates/trade-server/src/backtest/synthetic_snapshots.rs:392-393 | sorting both inputs first does not change the merged order |
| `SnapshotMerge.MergedHead` | crates/trade-server/src/backtest/coordinator.rs:231-243 | the head of the merged order is the earlier head, the snapshot on a tie |
| `SnapshotMerge.ApplyUpdatesToSnapshots` | crates/trade-server/src/backtest/runner.rs:275-344 | draining runs of equal timestamps feeds the tracker the merged order; with no updates the snapshots come back as they are |
| `SnapshotMerge.EarlyReturnExact` | crates/trade-server/src/backtest/runner.rs:279-281 | the early return for no updates agrees with the merge if and only if the snapshots were in order |
| `SnapshotMerge.DrainTakesMerged` | crates/trade-server/src/backtest/coordinator.rs:506-538 | from any valid state, the books a drained coordinator delivers are those the tracker yields from the merged order of what is left, popped one at a time |
| `SnapshotMerge.StreamDeliversMerged` | crates/trade-server/src/backtest/coordinator.rs:171-243 | main result: the books the streaming coordinator delivers from any data are those of the merge, so they are the output of apply_updates_to_snapshots for nonempty updates and the books of the written rows; each is a snapshot with the updates since applied, input by input |
| `SnapshotMerge.RowsCarryCauses` | crates/trade-server/src/backtest/synthetic_snapshots.rs:445-528 | the rows are caused, in order, by the snapshots and by exactly the updates that come after a snapshot of their asset |
| `SnapshotMerge.WriteSyntheticSnapshots` | crates/trade-server/src/backtest/synthetic_snapshots.rs:392-583 | for every batch size the batches concatenate to the rows of the merged order, all but the last are full, rows = raw + synthetic, raw = snapshots, synthetic + ignored = updates |
| `SnapshotMerge.FlushBatch` | crates/trade-server/src/backtest/synthetic_snapshots.rs:284-361 | writes the buffered rows as one batch, nothing if there are none |
| `SnapshotMerge.RowsCarryBooks` | crates/trade-server/src/backtest/synthetic_snapshots.rs:445-528 | the rows carry exactly the books the merge yields |
| `Timeline.BuildTicks` | crates/trade-server/src/backtest/timeline.rs:39-156 | empty snapshots are an error; otherwise the loops build one tick per sorted snapshot with its share of trades and spot prices |
| `Timeline.Distribute` | crates/trade-server/src/backtest/timeline.rs:71-130 | both assignment loops, with and without early items, cut sorted items at the tick starts, leftovers going to the last tick |
| `Timeline.TimelinePartition` | crates/trade-server/src/backtest/timeline.rs:39-156 | main result: flattening the ticks gives back the sorted trades not before the first snapshot and all sorted spot prices, and each sits in the last tick starting at or before it, early spot prices in tick 0 |
| `Timeline.OwnerUnique` | crates/trade-server/src/backtest/timeline.rs:71-92 | at most one tick owns a time, even when snapshots share timestamps |
| `Timeline.KeptIsSort` | crates/trade-server/src/backtest/timeline.rs:48-73 | discarding the early ones from the sorted trades gives the stable sort of the trades not before the first snapshot |
| `Timeline.BacktestTimeline.NextTick` | crates/trade-server/src/backtest/timeline.rs:184-192 | returns what peek shows and advances, or stays at the end |
| `TimelineCoordinator.TimelineCoordinator.TakeTurn` | crates/trade-server/src/backtest/coordinator.rs:305-428 | one turn of the timeline-mode loop, result and new state, is the turn function the results on turns are about |
| `TimelineCoordinator.TimelineCoordinator.NextEvent` | crates/trade-server/src/backtest/coordinator.rs:305-428 | the timeline-mode loop of turns computes the transition function the results below are about |
| `TimelineCoordinator.TourTurnMarket` | crates/trade-server/src/backtest/coordinator.rs:305-428 | a turn delivers the head of the market events to come, or leaves them as they are |
| `TimelineCoordinator.DrainsUpcoming` | crates/trade-server/src/backtest/coordinator.rs:305-428 | from any valid state, whatever is queued and however timers fall, draining delivers the market events to come in order, each once |
| `TimelineCoordinator.TimelineCoordinator.EnqueueEvent` | crates/trade-server/src/backtest/coordinator.rs:291-299 | appends to the queue of the timeline mode and changes nothing else |
| `TimelineTimers.ScanExactly` | crates/trade-server/src/backtest/coordinator.rs:383-414 | a scan passes over the timers up to the clock, delivers the next one if it lies before the end of the tick, drops it if it is the end, and keeps it otherwise |
| `TimelineTimers.TurnKeepsTime` | crates/trade-server/src/backtest/coordinator.rs:305-428 | in timeline mode events set the clock to their own time, and a timer lies on the grid, after the clock and before the next tick or within a second of the last |
| `TimelineTimers.TimelineTimersOnGrid` | crates/trade-server/src/backtest/coordinator.rs:137-165 | the timers delivered in timeline mode lie at whole intervals after the first snapshot, at least an interval apart, not after the last snapshot |
| `TimelineQueue.TourQueueIsFifo` | crates/trade-server/src/backtest/coordinator.rs:305-315 | in timeline mode too, events delivered from the queue followed by those still in it are those enqueued, in order, over any interleaving |
| `TimelineQueue.TourMarketUnaffected` | crates/trade-server/src/backtest/coordinator.rs:305-428 | in timeline mode, over any interleaving, the market and timer events delivered, followed by those still to come, are those of the run without enqueues |
| `TimelineQueue.TourDeliveredBeforeTheEnd` | crates/trade-server/src/backtest/coordinator.rs:305-428 | in timeline mode, at the call that first reports the end everything enqueued before and all market and timer events have been delivered |
| `TimelineQueue.TourEndIsAbsorbing` | crates/trade-server/src/backtest/coordinator.rs:305-309 | in timeline mode, after the end every call reports the end, whatever is enqueued, and the rest of the state no longer changes |
| `TimelineCoordinator.DeliversTicks` | crates/trade-server/src/backtest/coordinator.rs:137-165 | from the start, each tick is delivered as its trades, then its spot prices, then its snapshot |
| `Framer.BatchDecoder.FindJsonBoundary` | crates/polyfill-rs/src/decode.rs:449-475 | the scan loop finds the end of the first frame from a position, if there is one |
| `Framer.BatchDecoder.ParseJsonStream` | crates/polyfill-rs/src/decode.rs:424-446 | returns the values of the complete frames that parse and keeps exactly the leftover |
| `FrameEnds.BoundaryExactly` | crates/polyfill-rs/src/decode.rs:449-475 | main result: on any bytes the first frame ends with the first closing brace outside strings that makes the braces balance, and there is none otherwise |
| `Framer.FramesAppend` | crates/polyfill-rs/src/decode.rs:424-475 | later bytes only add frames after those already complete |
| `Framer.ChunkingInvariance` | crates/polyfill-rs/src/decode.rs:424-446 | feeding bytes in any chunks gives the frames, order and leftover of feeding them at once |
| `Framer.ChunkedValues` | crates/polyfill-rs/src/decode.rs:424-446 | the values returned by successive calls on any chunks are, one after the other, those of one call on all the bytes, with the same leftover |
| `Framer.NothingLost` | crates/polyfill-rs/src/decode.rs:428-445 | the frames followed by the leftover are the input: no byte is lost or repeated |
| `Framer.RestHasNoFrame` | crates/polyfill-rs/src/decode.rs:440-443 | what is kept holds no complete frame |
| `JsonFraming.TextNeutral` | crates/polyfill-rs/src/decode.rs:455-468 | whatever a JSON string contains, braces, quotes and escapes included, scanning it leaves the state as it was |
| `JsonFraming.ObjectIsFrame` | crates/polyfill-rs/src/decode.rs:449-475 | a printed object is a frame as a whole and at no byte before its end |
| `JsonFraming.StreamRecovered` | crates/polyfill-rs/src/decode.rs:424-475 | main result: for all lists of objects (RFC 8259) with any permitted whitespace, the frames of the stream are exactly those objects and only trailing whitespace is left |
| `JsonFraming.ChunkedStreamRecovered` | crates/polyfill-rs/src/decode.rs:424-475 | the same for the stream cut into arbitrary chunks |
| `JsonFraming.OnlyObjectsAreFrames` | crates/polyfill-rs/src/decode.rs:449-475 | a JSON text comes out of the framer as it went in if and only if it is an object |
| `Prices.RoundNearest` | crates/polyfill-rs/src/types.rs:92-118 | rounding is to a nearest integer, even on a tie |
| `Prices.PriceFits` | crates/polyfill-rs/src/types.rs:92-113 | from zero up the prices accepted are exactly those below half a tick above 2^32 - 1 ticks; none is accepted that is more than half a tick below zero |
| `Prices.PriceMonotone` | crates/polyfill-rs/src/types.rs:92-113 | quantisation keeps the order of prices, and a price below an accepted one is accepted down to zero |
| `Prices.PriceWithinHalfTick` | crates/polyfill-rs/src/types.rs:92-118 | a price of at least half a tick moves by at most half a tick, a tie going to the even one; a smaller one becomes one tick |
| `Prices.PriceRoundTrip` | crates/polyfill-rs/src/types.rs:121-124 | ticks survive the way to a decimal and back, except 0, which becomes 1 |
| `Prices.QtyFits` | crates/polyfill-rs/src/types.rs:133-144 | the quantities accepted are exactly those nearer to the range than half a unit |
| `Prices.QtyWithinHalfUnit` | crates/polyfill-rs/src/types.rs:133-144 | a quantity moves by at most half a unit, a tie going to the even one |
| `Prices.QtyRoundTrip` | crates/polyfill-rs/src/types.rs:133-155 | a quantity survives the way to a decimal and back exactly when its magnitude is in range |
| `Prices.TickChecksAgree` | crates/polyfill-rs/src/types.rs:164-184 | the decimal tick check accepts exactly the prices that quantise to what the integer check accepts, for every tick size, 0 included |
| `OrderBook.OrderBook.Clear` | crates/polyfill-rs/src/book.rs:102-105 | empties both sides and changes nothing else |
| `OrderBook.OrderBook.SetTickSize` | crates/polyfill-rs/src/book.rs:110-115 | stores the quantised tick size or fails and changes nothing |
| `OrderBook.OrderBook.TrimDepth` | crates/polyfill-rs/src/book.rs:481-499 | the loops leave exactly the levels with fewer than max_depth better ones |
| `OrderBook.OrderBook.ApplyDeltaFast` | crates/polyfill-rs/src/book.rs:344-403 | stale, mismatched and misaligned deltas change nothing; any other sets or removes its level, sets sequence and timestamp and leaves the top of both sides |
| `OrderBook.OrderBook.ApplyDelta` | crates/polyfill-rs/src/book.rs:325-334 | the decimal delta is refused or does what its quantised form does |
| `OrderBook.DropWorst` | crates/polyfill-rs/src/book.rs:481-499 | removing the worst level of a side that is too deep does not change its best levels |
| `OrderBook.TopWithinDepth` | crates/polyfill-rs/src/book.rs:481-499 | a trimmed side has at most max_depth levels |
| `BookRuns.MissingIsLost` | crates/polyfill-rs/src/book.rs:344-499 | main result: over any run of deltas and clears, each side stays within its depth, holds only levels of the unbounded book with their sizes, and misses exactly the lost prices: those dropped by a trim since the last clear and named by no accepted delta since |
| `BookRuns.BestExact` | crates/polyfill-rs/src/book.rs:481-499 | main result: the best level of a side is the best on offer if and only if it is better than everything lost; an empty side is right if and only if nothing is lost |
| `BookRuns.TopExact` | crates/polyfill-rs/src/book.rs:481-499 | main result: a side is exactly the best max_depth levels of the unbounded book if and only if nothing is lost, or it is full and all its levels are better than everything lost |
| `BookRuns.FrontierTheorem` | crates/polyfill-rs/src/book.rs:344-499 | so it agrees with the unbounded book, best level included, at every price strictly better than everything trimmed since the last clear |
| `BookRuns.FrontierNeeded` | crates/polyfill-rs/src/book.rs:481-499 | elsewhere it can be wrong: a run of four asks after which the best ask is not the best one on offer |
| `BookRuns.TopOfSet` | crates/polyfill-rs/src/book.rs:391-392 | setting a level in a trimmed side and trimming again gives the trim of the untrimmed side with that level set |
| `BookRuns.NoRemovalsTheorem` | crates/polyfill-rs/src/book.rs:344-499 | main result: while nothing is removed, both sides are at all times exactly the best max_depth levels of the last-write-wins book |
| `BookRuns.AppliedExactly` | crates/polyfill-rs/src/book.rs:344-403 | a delta is applied exactly if it is newer, for the token and on the ticks; then sequence and timestamp are its own, else nothing changes |
| `BookRuns.OtherTokenIgnored` | crates/polyfill-rs/src/book.rs:325-359 | a decimal delta of another token never changes the book |
| `BookRuns.SequenceNeverBack` | crates/polyfill-rs/src/book.rs:345-385 | the sequence number never decreases |
| `BookRuns.ReplayIsHarmless` | crates/polyfill-rs/src/book.rs:345-354 | an accepted delta replayed at any later time changes nothing |
| `BookRuns.TicksKept` | crates/polyfill-rs/src/book.rs:362-382 | every level stays a multiple of a tick size set at the start |
| `BookRuns.DecimalMatchesFast` | crates/polyfill-rs/src/book.rs:325-334 | the decimal path ends in the same book as quantising and taking the fast path; its extra check changes only which error is reported |
| `BookFeed.ApplySnapshot` | crates/polyfill-rs/src/ws_orderbook.rs:50-101 | clears the book and sends all readable asks, then all readable bids, each with the next counter value |
| `BookFeed.ApplyBestLevels` | crates/polyfill-rs/src/ws_orderbook.rs:13-46 | clears the book and sends the best bid, then the best ask, with size one |
| `BookFeed.ApplyChange` | crates/polyfill-rs/src/ws_orderbook.rs:160-200 | best prices replace the book when there are any; otherwise a readable price and size are sent as one delta |
| `BookFeed.ProcessWsMessage` | crates/polyfill-rs/src/ws_orderbook.rs:130-210 | each book and its counter go through exactly what the message asks of its token, the first token taking precedence; unknown messages are reported and do nothing |
| `FeedEffects.QuoteEffect` | crates/polyfill-rs/src/ws_orderbook.rs:13-127 | main result for one delta: a price and size that fit set or remove the level of that price on that side, which is trimmed to its best, and leave the other side; any other leaves the book; the counter moves by one |
| `FeedEffects.BestPricesLeft` | crates/polyfill-rs/src/ws_orderbook.rs:13-46 | main result: after a change with best prices the bids are exactly the best bid with size one if it fits, and the asks exactly the best ask |
| `FeedEffects.PlainChangeLeft` | crates/polyfill-rs/src/ws_orderbook.rs:104-127 | main result: after a change without best prices the quoted size stands at the quoted price on the asks for a sell and on the bids otherwise, the other side as it was |
| `FeedEffects.ChangesInOrder` | crates/polyfill-rs/src/ws_orderbook.rs:157-206 | the changes of a message take effect one after the other, those of other tokens not at all |
| `FeedEffects.ItemsInOrder` | crates/polyfill-rs/src/ws_orderbook.rs:139-153 | the items of a snapshot message replace the book one after the other, those of other tokens not at all |
| `FeedEffects.SnapshotInOrder` | crates/polyfill-rs/src/ws_orderbook.rs:50-101 | a snapshot empties the book, then its asks take effect, then its bids |
| `FeedEffects.LevelsInOrder` | crates/polyfill-rs/src/ws_orderbook.rs:60-100 | the levels of a snapshot take effect one after the other, unreadable ones not at all |
| `FeedEffects.SecondBook` | crates/polyfill-rs/src/ws_orderbook.rs:146-150 | both books get what is addressed to them, except that with one token for both the second is left alone |
| `FeedRuns.NeverStale` | crates/polyfill-rs/src/ws_orderbook.rs:50-127 | every operation keeps the counter at or above the book sequence, and no delta it sends is dropped as stale; each is applied or refused by its own price and size |
| `FeedRuns.SessionNeverStale` | crates/polyfill-rs/src/ws_orderbook.rs:130-210 | main result: over any run of messages no delta is stale, and each is applied if its price is in range and on the tick grid and its size in range, and refused otherwise |
| `FeedRuns.OtherTokenUntouched` | crates/polyfill-rs/src/ws_orderbook.rs:139-156 | a message that names nothing of a token leaves its book and counter as they are |
| `FeedRuns.FeedOnTicks` | crates/polyfill-rs/src/ws_orderbook.rs:50-127 | every level stays a multiple of the tick size under any feed operations |
| `FeedRuns.FeedKeepsPositive` | crates/polyfill-rs/src/ws_orderbook.rs:50-127 | operations that send no negative size keep every price and size of the book positive |
| `FeedRuns.SessionKeepsPositive` | crates/polyfill-rs/src/ws_orderbook.rs:130-210 | so do whole runs of messages, which gives the positive books the results on walks ask for |
| `FeedRuns.SnapshotDeterminesBook` | crates/polyfill-rs/src/ws_orderbook.rs:50-101 | the levels after a snapshot depend on the snapshot, tick size and depth alone, whatever was there before |
| `FeedRuns.SnapshotLeavesTop` | crates/polyfill-rs/src/ws_orderbook.rs:50-101 | main result: a snapshot without zero sizes leaves exactly the best max_depth of the levels it quotes, last write winning |
| `Walk.FilledAmount` | crates/polyfill-rs/src/fill.rs:103-135 | the walk fills the amount, or everything there is |
| `Walk.MarginalCost` | crates/polyfill-rs/src/book.rs:527-540 | every further unit costs at least the lowest price left |
| `Walk.GreedyIsOptimal` | crates/polyfill-rs/src/fill.rs:98-135 | main result: over all allocations of the filled amount within the level sizes, the walk costs a buyer least and earns a seller most |
| `Walk.WalkIsConvex` | crates/polyfill-rs/src/book.rs:527-540 | main result: on ascending prices the cost is convex in the amount: the same amount more costs at least as much on top of a larger order |
| `Walk.WalkIsConcave` | crates/polyfill-rs/src/book.rs:527-540 | on descending prices what a seller earns is concave in the amount |
| `Walk.AverageCostRises` | crates/polyfill-rs/src/book.rs:527-551 | on ascending prices the average cost of a smaller amount is at most that of a larger one |
| `MarketOrders.BookLevels` | crates/polyfill-rs/src/book.rs:254-282 | the levels read off a book are the best max_depth of the side, best first, as decimals |
| `MarketOrders.LevelsRead` | crates/polyfill-rs/src/book.rs:254-282 | main result: a taker reads as many levels as there are up to max_depth, one for one and best first the prices of the top of the side in units of 0.0001, each with the size that stands there |
| `MarketOrders.LevelsForFacts` | crates/polyfill-rs/src/book.rs:254-282 | those levels are sorted from the taker's side, positive, and start at the best level of the book |
| `MarketOrders.WalkForImpact` | crates/polyfill-rs/src/book.rs:522-540 | the impact loop leaves the amount less the filled amount, and its two accumulators are the cost of the walk |
| `MarketOrders.CalculateMarketImpact` | crates/polyfill-rs/src/book.rs:508-573 | the result is the impact stated on the walk: None without enough on offer |
| `MarketOrders.FillEngine.WalkLevels` | crates/polyfill-rs/src/fill.rs:98-135 | the engine's loop produces the fills of the walk, with their total cost and size and the remainder |
| `MarketOrders.FillEngine.ExecuteMarketOrder` | crates/polyfill-rs/src/fill.rs:66-206 | the result and the recorded fills are those of the specified execution; a rejected or empty result records nothing |
| `MarketOrders.FillsMatchWalk` | crates/polyfill-rs/src/fill.rs:98-135 | size, cost and fees of the engine's fills are the filled amount, the cost of the walk and the fee on that cost |
| `MarketOrders.ImpactAgreesWithFills` | crates/polyfill-rs/src/fill.rs:299-323 | main result: an impact exists if and only if the engine's walk leaves no remainder; then costs are equal and slippage is the impact |
| `MarketOrders.ImpactMeaning` | crates/polyfill-rs/src/book.rs:508-573 | there is an impact exactly if the side holds enough; its average times the size is the cost of the walk, and its percentage of the best price the distance of the average from it |
| `MarketOrders.FillsOneByOne` | crates/polyfill-rs/src/fill.rs:98-135 | the fills are the order's own, one for each level walked, with its price, the size taken and the fee on it |
| `MarketOrders.OrderOutcome` | crates/polyfill-rs/src/fill.rs:66-206 | main result: what becomes of any market order over positive levels: the two errors, unfilled on an empty side, rejected exactly if the average is too much worse than the best, else the lesser of amount and depth filled, with its cost, fees and status |
| `MarketOrders.FillableOrder` | crates/polyfill-rs/src/fill.rs:137-206 | main result: a fully fillable order is rejected exactly when its impact exceeds the maximum, and otherwise filled with sizes summing to the amount and fees on the total cost |
| `MarketOrders.AverageNotBetter` | crates/polyfill-rs/src/utils.rs:300-321 | the average price of a complete walk is no better than the best price |
| `MarketOrders.ImpactGrows` | crates/polyfill-rs/src/book.rs:508-573 | main result: for a smaller and a larger size within depth, the average price is no better and the impact, never negative, no smaller for the larger one |
| `OrderAmounts.RoundingConfig` | crates/polyfill-rs/src/orders.rs:53-88 | in every configuration amount digits are price digits plus size digits, at most six |
| `OrderAmounts.ConfigOfTick` | crates/polyfill-rs/src/orders.rs:53-88 | the table has a row exactly for the values 0.1 to 0.0001, with as many price digits as the tick has, two for sizes and their sum for amounts |
| `OrderAmounts.RoundingsMean` | crates/polyfill-rs/src/orders.rs:161-210 | a price is rounded to the nearest of its digits, a tie going toward zero; a size is cut, by less than one unit |
| `OrderAmounts.TokenExact` | crates/polyfill-rs/src/orders.rs:119-125 | a decimal of at most six digits becomes exactly its millionths, or fails exactly when they do not fit 32 bits |
| `OrderAmounts.LimitProductNotRounded` | crates/polyfill-rs/src/orders.rs:161-191 | shares times price needs no rounding under any configuration |
| `OrderAmounts.LimitAmountsExact` | crates/polyfill-rs/src/orders.rs:161-191 | main result: limit order amounts are exact in all four tick configurations; money over shares is the price rounded to nearest, shares are the size cut to its digits, and only an amount out of range fails |
| `OrderAmounts.FixByValue` | crates/polyfill-rs/src/orders.rs:150-158 | fixing an amount depends on its value alone, not on the scale it is kept at |
| `OrderAmounts.FixMonotone` | crates/polyfill-rs/src/orders.rs:150-158 | fixing is monotone across scales and signs |
| `OrderAmounts.FixIdempotent` | crates/polyfill-rs/src/orders.rs:150-158 | fixing twice is fixing once |
| `OrderAmounts.FixBounds` | crates/polyfill-rs/src/orders.rs:150-158 | the fixed value r of an amount q satisfies q - 0.9999 * 10^-a <= r < q + 10^-(a + 4), which leaves one value of a digits |
| `OrderAmounts.MarketAmountBounds` | crates/polyfill-rs/src/orders.rs:194-210 | main result: market order amounts exist exactly when the rounded price is not zero and both amounts fit; they are the exact millionths of the cut amount and of the fixed quotient by the price rounded to nearest, within the bounds |
| `OrderAmounts.MarketOrderKeepsPrice` | crates/polyfill-rs/src/orders.rs:194-210 | with a division accurate to the last digit, tokens times price is the money up to 10^-a below and 10^-(a + 4) above in tokens |
| `TokenBucket.RateLimiter.Refill` | crates/polyfill-rs/src/utils.rs:494-504 | adds one token per full period since the last refill, up to the capacity, and only then moves the refill time |
| `TokenBucket.RateLimiter.TryConsume` | crates/polyfill-rs/src/utils.rs:482-492 | succeeds exactly when a token is there after the refill, and takes it |
| `TokenBucket.PeriodsRestored` | crates/polyfill-rs/src/utils.rs:494-504 | a refill after k full periods restores at least k tokens, up to the capacity, so a call a period after the last refill is granted |
| `TokenBucket.TokensConserved` | crates/polyfill-rs/src/utils.rs:482-504 | over any run of any threads, tokens granted and left are covered by those at the start and one per full period between first and last refill time |
| `TokenBucket.WindowBound` | crates/polyfill-rs/src/utils.rs:482-504 | main result: in every window [s, e] of every run at most capacity + floor((e - s) / rate) + threads tokens are granted |
| `TokenBucket.WorstRunGrants` | crates/polyfill-rs/src/utils.rs:482-504 | the bound is attained from a fresh bucket in a window of length zero |
| `TokenBucket.AllowanceExact` | crates/polyfill-rs/src/utils.rs:482-504 | capacity + floor((e - s) / rate) + allowance bounds all windows of all runs if and only if the allowance covers the number of threads |
| `TokenBucket.EmptyBucketGrantsNothing` | crates/polyfill-rs/src/utils.rs:482-504 | without capacity nothing is ever granted |
| `Completeness.CollectSnapshots` | crates/trade-server/src/backtest/completeness.rs:254-277 | the grouping pass holds, for every (ticker, outcome), what its snapshots say: their number, the latest time and the first end date |
| `Completeness.CollectTrades` | crates/trade-server/src/backtest/completeness.rs:279-297 | the same with trades, counted without touching the latest snapshot time |
| `Completeness.GroupByTicker` | crates/trade-server/src/backtest/completeness.rs:299-303 | every outcome is listed once under its ticker, in whatever order |
| `Completeness.CheckMarket` | crates/trade-server/src/backtest/completeness.rs:326-379 | whatever the order of outcomes, a market is complete exactly when all outcomes are and Up and Down come together, and the reasons name exactly what fails |
| `Completeness.Check` | crates/trade-server/src/backtest/completeness.rs:246-323 | the report has exactly the tickers with data, each judged on its own events, and the counts agree |
| `Completeness.OutcomesReported` | crates/trade-server/src/backtest/completeness.rs:246-307 | main result: in any report a ticker has an outcome exactly if the metadata of some event say so, a missing outcome being Unknown; its data are the numbers of those snapshots and trades, the latest of the snapshots and the first end date |
| `Completeness.MarketsJudged` | crates/trade-server/src/backtest/completeness.rs:326-379 | main result: a market is complete exactly if all its outcomes pass and it has both Up and Down or neither; what is missing is named, and so is every reason of an outcome |
| `Completeness.ReasonsExactly` | crates/trade-server/src/backtest/completeness.rs:382-412 | the reasons of an outcome are exactly what fails, with the counts found and required and the gap in whole seconds |
| `Completeness.KeptExactly` | crates/trade-server/src/backtest/completeness.rs:417-448 | the filter lets through every event of a kept ticker as often as it was there and nothing else, not even events without metadata |
| `Completeness.PassesExactly` | crates/trade-server/src/backtest/completeness.rs:382-412 | an outcome passes if and only if it has enough snapshots and trades and its gap to the end date is below the limit plus one second (for a limit of zero or more) |
| `Completeness.MatchingKept` | crates/trade-server/src/backtest/completeness.rs:417-448 | filtering keeps all events of a kept ticker's outcomes in order and none of another's |
| `Completeness.FilterIsFixedPoint` | crates/trade-server/src/backtest/completeness.rs:246-448 | main result: for every input and configuration, checking the filtered data reports exactly the complete markets of the first report, unchanged, none incomplete, and filtering again drops nothing |

## Left out

- OrderAmounts.MarketAmountBounds: the division of amount by price is a parameter, since the decimal library's 28-digit quotient is not part of the repository; `OrderAmounts.MarketOrderKeepsPrice` states what follows from its accuracy.
- CoordinatorRuns.DeliversStableSort: needs a snapshot and a positive interval, because without snapshots the source starts at the wall clock and a zero interval never ends.
- TimelineTimers.TimelineTimersOnGrid: gives no exact count of the timers in timeline mode, where boundary timers are dropped and time goes back from trades to their snapshot.
- MarketOrders.CalculateMarketImpact: needs a size other than zero when there are levels, and a best price other than zero when there are enough, since the source divides by both; negative sizes are allowed here, but the results on the walk need positive ones, which `FeedRuns.SessionKeepsPositive` provides.
- MarketOrders.FillEngine.ExecuteMarketOrder: needs a filled amount and a best price other than zero, by which the source divides; fill ids, addresses and timestamps are not modelled.
- SnapshotMerge.WriteSyntheticSnapshots: only with mirroring of binary markets off; a row is the book and its cause, not its columns.
- Timeline.BuildTicks: times are at most 2^63 - 1, the width of the source's type.
- BookFeed.ProcessWsMessage: messages are already parsed, tokens are ids, the side text is a boolean, and a message has one clock reading.
- Framer.BatchDecoder.ParseJsonStream: parsing a frame is a parameter, and the depth counter does not overflow (2^31 open braces).
- TokenBucket.WindowBound: the token count does not overflow its machine width.
- Completeness.Check: vectors sorted by a unique name are maps, failure reasons have the order of a hash map's iteration, counters do not overflow; which milliseconds are dates and how end dates parse are parameters.
- How an update changes the levels of a tracked book: a parameter of the tracker, so the results hold for any rule; eviction of idle assets is not modelled.
- Prices.PriceFits: says nothing of prices from half a tick below zero up to zero, since whether one of them is accepted depends on the decimal library's sign of zero, which is not part of the repository.
- Prices.PriceMonotone: promises acceptance down to zero only, for the same reason.
- Prices.QtyRoundTrip: the absolute value of the least 64-bit integer does not overflow.
- Hash collisions of token ids, overflow of sequence numbers, and rounding of the decimal library beyond 28 digits.
- Spot prices below millisecond resolution and times the date library cannot represent.
- Limit orders of the fill engine, the fill processor, market price search, staleness, analytics and spread helpers: simple reads or wall-clock logic with easy claims only.
- Signing, hashing, HTTP, WebSocket transport, Redis, ClickHouse, Parquet and file output.
- The event processor, position manager, order executor and the run loop around them.
