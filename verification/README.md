# Verified model of the maker simulator, its books and its accounting

This project models the logic of the Hyperliquid pipeline that turns order-book and trade streams into simulated
maker fills and profit figures, and proves what that logic is for. It is a Dafny 4.11 project:
`dafny verify dfyconfig.toml` checks all of it.

## What is modelled

- **The queue simulator** (`sim/queue.py`). Virtual orders are overlaid on a replayed book as one FIFO of real and own
  segments per price. `Fifo` is one level, `QueueState` the whole simulator as a state and a step, and `QueueSim.dfy`
  the object with its level objects, every method proved to carry out its step. On top of them: what every step keeps
  (`QueueInvariant`), the bracket between the three cancel assumptions over whole runs (`Bracket` relates two levels
  order by order, `Edges` by back edges, `Floor` says over whole scripts exactly when one assumption stays below
  another, `Chain` covers prices quoted once, and `CancelCounterexample` and `CeilingCounterexample` are computed on
  `OneLevel`), price-time priority and what a fill reports (`Priority`, `FillReports`, `Allocation`), the EXACT mode
  against the order-level book (`LazyConsumption` on one level, `BlockPrints` on the whole simulator, `ExactMode`,
  `ExactRuns`), and PESSIMISTIC against EXACT over one block stream (`ExactEdges`, `ExactFloor`, and a stream where it
  fails in `GrowthCounterexample`).
- **The books** (`book/l4_book.py`, `book/l2_book.py`). `OrderList` is a book as one list of resting orders in arrival
  order, `BookState` what diffs, blocks and snapshots make of it, `L4Book.dfy` the structured book with index, levels
  and cached totals, and `L2Book.dfy` the aggregated one.
- **Feeding them** (`collectors/node_feed.py`, `book/replay.py`): `FeedState` with the loops in `NodeFeed` and `Replay`.
- **The engine and its PnL** (`sim/engine.py`, `sim/sweep.py`): `EngineState`, the loop on objects in `Engine`, the
  two-cursor buckets in `Bucketize`, and one cell of the sweep, with the streams for which its buckets add up to the
  pass, in `SweepCell` and `LateFill`. `EngineScript` shows a pass to be one simulator script, so that what is proved
  of scripts holds of passes. The policy is an oracle: each book event carries whatever it answered.
- **The batching writer** (`storage/database.py`): its critical sections and every interleaving of them in `Batching`,
  and when the order of arrival survives them in `ArrivalOrder`.
- **The bar backtester** (`backtest/engine.py`): `Backtest` and `BacktestLaws`.
- **Order-flow imbalance** (`research/ofi.py`, `sim/policy.py`): `Ofi` in batch, `RollingOfi` incrementally.
- **Latency percentiles** (`utils/latency.py`, `bench/ws_latency.py`): `Latency`.

Sizes are exact reals that are never negative, prices are tick counts, times and heights are integers, and the
simulator's `_EPS` is taken as 0. A `BookView` is a value between two `on_book` calls. Orders are placed after a book
and before the next print, as `sim/types.py:14-16` asks of the engine; only the bracket needs that.

Where code and comments differ the model follows the code:

- `sim/types.py:32-33` calls PESSIMISTIC a genuine floor. It is one until a cancel pulls an order that has been filled
  less under it from in front of another (`CancelCounterexample.CancelBreaksTheFloor`). `Floor.OrderedIffSafe` says
  exactly which cancels leave the floor standing; pulling the newest quote at a price or one filled as much in both
  simulators always does (`Floor.PessimisticIsAFloor`).
- The same comment makes it a floor for real queues. A resting order that grows in place gets ahead of ours there and
  joins behind under PESSIMISTIC (`GrowthCounterexample.GrowthBreaksTheFloor`). `ExactFloor.FloorIffSafe` says exactly
  which cancels and blocks leave PESSIMISTIC below EXACT; blocks that raise no open order's queue-ahead always do
  (`ExactFloor.PessimisticIsAGenuineFloor`).
- `sim/types.py:37` calls OPTIMISTIC a genuine ceiling. With several quotes at one price PRORATA can fill one of them
  more, without any cancel (`CeilingCounterexample.OptimisticIsNoCeiling`). `Floor.OrderedIffSafe` says exactly which
  book updates and cancels leave the ceiling standing; quoting each price once always does (`Chain.QuotesOnceIsSafe`).
- `sim/types.py:17-18` says the queue never sees actions against a stale view. A block, stale or not, acts on the
  simulator before its prints exactly when a due action places an order or cancels an open one
  (`EngineState.StaleBlockActsIff`; in the pass of `EngineState.StaleViewSeesAPlace` an order is placed that way on a
  stale block), and nothing is open after the eviction step.
- `backtest/engine.py:73-76` says trade returns include costs and tie out to the equity curve. The cost of leaving a
  position falls on the first flat bar, outside every trade (`BacktestLaws.ExitCostIsOutsideTheTrade`);
  `BacktestLaws.TradesTieOutIff` says exactly when they do.
- `sim/sweep.py:195-197` says bucket PnLs telescope to the total. A fill stamped after the last mid falls in no bucket
  (`LateFill.BucketsMissALateFill`); `SweepCell.CellBuckets` says exactly which streams have one, and that none merged
  in time order does.
- In EXACT mode a repeated `new` is appended while the order-level book cancels and replaces
  (`ExactMode.ReannouncedDiffers`); `ExactMode.DiffAgreesIff` says exactly which diffs keep the two alike.
- `storage/database.py:659-661` says a batch that was not stored is retried rather than silently dropped. Of a batch the
  inner store takes in part the rest is gone, uncounted; `Batching.LostIffInPart` says that is the only way to lose
  points uncounted.
- `storage/database.py:672` says a requeued batch is back in its original order at the front. It is, of itself, but
  flushes overlap: `ArrivalOrder.OrderIffInTurn` says exactly which interleavings keep arrival order, and
  `ArrivalOrder.OverlapBreaksOrder` is one that does not.

## Model

| member | source | states |
|---|---|---|
| `Floor.PessimisticIsAFloor` | src/hyperliquid_pipeline/sim/types.py:32-34 | After every prefix of a common script of places, prints, books and cancels, with any number of orders per level, no order has more left, or has been filled less, under PRORATA or OPTIMISTIC than under PESSIMISTIC, as long as each cancel pulls the newest quote at its price or one with as much left in both runs |
| `Floor.SafeIsOrdered` | src/hyperliquid_pipeline/sim/queue.py:138-176 | For each pair of assumptions the bracket compares: after a script whose cancels (and, against PRORATA, book updates) are safe, no order has more left, or less filled, under the one meant to fill more |
| `Floor.EventSafeIff` | src/hyperliquid_pipeline/sim/queue.py:118-134 | The exact condition for one cancel (or, against PRORATA, one book update): the order of the fills stands from there on, until the next event that can upset it, if and only if every order still open keeps its back edges in order |
| `Floor.OrderedIffSafe` | src/hyperliquid_pipeline/sim/types.py:32-38 | The exact condition for a whole script: floor (against PESSIMISTIC) or ceiling (OPTIMISTIC against PRORATA) stands from every step on if and only if every step that can upset it is safe |
| `Floor.UnsafeIsUnordered` | src/hyperliquid_pipeline/sim/queue.py:138-156 | After an unsafe cancel or book update there is one print that leaves an order with more under the assumption meant to fill more |
| `Edges.PullKeepsEdgesIff` | src/hyperliquid_pipeline/sim/queue.py:118-134 | Pulling an order keeps every back edge (volume up to and including an order) of one level below another's if and only if that holds behind it once its remaining size is taken off each side |
| `Edges.ShowKeepsEdgesIff` | src/hyperliquid_pipeline/sim/queue.py:405-450 | A book update keeps the back edges of one level below another's if and only if that holds once each side's removal from ahead of the order, in closed form, is taken off |
| `Edges.EdgeAfterPrint` | src/hyperliquid_pipeline/sim/queue.py:284-321 | A print at the price moves every back edge up by its size, and an order keeps exactly what lies past the print |
| `Floor.NoCancelsAreHarmless` | src/hyperliquid_pipeline/sim/queue.py:118-134 | A script without cancels meets the floor's hypothesis |
| `Floor.NewestAreHarmless` | src/hyperliquid_pipeline/sim/queue.py:118-134 | So does a script that only cancels the newest quote at a price |
| `Bracket.RunsStayBelow` | src/hyperliquid_pipeline/sim/queue.py:138-176 | At every step of a script each level of the OPTIMISTIC or PRORATA simulator is order by order below the PESSIMISTIC one (less left, less volume, real and own, ahead) if and only if every cancel leaves the volume ahead in order |
| `Bracket.PullKeepsBelowIff` | src/hyperliquid_pipeline/sim/queue.py:118-134 | Pulling an order keeps one level below another if and only if, behind it, the volumes ahead stay in order once what the order has left is taken off each |
| `Bracket.NewestStayBelow` | src/hyperliquid_pipeline/sim/queue.py:118-134 | Cancels of the newest quote at a price always leave it in order |
| `Bracket.BelowPrint` | src/hyperliquid_pipeline/sim/queue.py:257-321 | One print, at the price or through it, keeps one level below another |
| `Bracket.BelowBook` | src/hyperliquid_pipeline/sim/queue.py:405-450 | One book update, reconciled behind-first on one side and front-first or pro-rata on the other, keeps one level below the other |
| `Bracket.LessLeftMoreFilled` | src/hyperliquid_pipeline/sim/queue.py:138-156 | Where an order never has more left in one run than in another, it has been filled at least as much there, and in full if it is open only in the other |
| `Bracket.RunMatchesView` | src/hyperliquid_pipeline/sim/queue.py:405-415 | After a book, and until the next print, the real size tracked at every level is the size the view shows |
| `Chain.FullChain` | src/hyperliquid_pipeline/sim/queue.py:417-450 | When each price is quoted at most once (cancels allowed): cumulative fill OPTIMISTIC >= PRORATA >= PESSIMISTIC at every step, and queue-ahead in the reverse order while the order is open |
| `Chain.NestedAfterBook` | src/hyperliquid_pipeline/sim/queue.py:417-450 | Pro-rata removal leaves at least what front-first removal leaves, and the two totals agree as long as anything real is ahead under OPTIMISTIC |
| `Chain.RunsStayNested` | src/hyperliquid_pipeline/sim/queue.py:138-176 | The OPTIMISTIC-against-PRORATA relation is kept by every step of a script that quotes each price once |
| `Chain.QuotesOnceIsEnough` | src/hyperliquid_pipeline/sim/queue.py:118-134 | Quoting each price once makes every cancel a cancel of the newest quote there |
| `Chain.QuotesOnceIsSafe` | src/hyperliquid_pipeline/sim/types.py:37-38 | Quoting each price once makes every book update and every cancel safe between OPTIMISTIC and PRORATA |
| `CancelCounterexample.CancelBreaksTheFloor` | src/hyperliquid_pipeline/sim/queue.py:118-134 | A concrete run in which cancelling an older order in front of a newer one makes PESSIMISTIC fill the newer order more than OPTIMISTIC does |
| `CeilingCounterexample.OptimisticIsNoCeiling` | src/hyperliquid_pipeline/sim/types.py:37-38 | A concrete run without cancels, with two quotes at one price, in which PRORATA fills the newer one and OPTIMISTIC fills nothing of it |
| `ExactFloor.PessimisticIsAGenuineFloor` | src/hyperliquid_pipeline/sim/types.py:32-34 | Over a well-formed block stream whose views show the sizes its diffs lead to: while no block raises an open order's EXACT queue-ahead and cancels are harmless, no order has more left, or less filled, under EXACT than under PESSIMISTIC |
| `ExactFloor.FloorIffSafe` | src/hyperliquid_pipeline/sim/types.py:32-34 | The exact condition: PESSIMISTIC stands as a floor of EXACT from every step on, until the next cancel or block, if and only if every cancel and block keeps the back edges in order |
| `ExactFloor.EventSafeIff` | src/hyperliquid_pipeline/sim/types.py:32-34 | The same for one cancel or one block |
| `ExactFloor.OwnViewShowsSizes` | src/hyperliquid_pipeline/book/l4_book.py:158-169 | An order-level book's own view shows the sizes such streams require |
| `ExactEdges.BlockKeepsEdgesIff` | src/hyperliquid_pipeline/sim/queue.py:370-415 | One block, applied by its diffs on one side and by its sizes on the other, keeps the back edges in order if and only if at every order with something left the real volume the diffs leave ahead, with everything of ours, is no more than the shown side keeps |
| `GrowthCounterexample.GrowthBreaksTheFloor` | src/hyperliquid_pipeline/sim/types.py:32-34 | A concrete well-formed stream in which a resting order grows in place: the floor stands before that block, and one print after it fills our order more under PESSIMISTIC |
| `ReconcileLaws.ReconcileLaw` | src/hyperliquid_pipeline/sim/queue.py:405-450 | A book update makes the tracked real size exactly the visible one, touches no own order, and leaves ahead of an order min(ahead, visible) behind-first, ahead less the shrinkage front-first, and something in between pro-rata |
| `ReconcileLaws.ProRataKeepsShare` | src/hyperliquid_pipeline/sim/queue.py:428-434 | Under PRORATA the real volume ahead of every order keeps its share of the level |
| `ReconcileLaws.RemoveBackLaw` | src/hyperliquid_pipeline/sim/queue.py:435-450 | Behind-first removal takes from ahead of an order only what everything behind it cannot give |
| `ReconcileLaws.RemoveFrontLaw` | src/hyperliquid_pipeline/sim/queue.py:435-450 | Front-first removal takes from ahead of an order first |
| `FifoLaws.WalkAtLaw` | src/hyperliquid_pipeline/sim/queue.py:284-321 | A print at the price takes its size off the front: every order's volume ahead falls by it, and the order loses exactly what reaches past that volume |
| `FifoLaws.WalkAtPays` | src/hyperliquid_pipeline/sim/queue.py:284-321 | In either mode a walk reorders nothing and pays an order exactly what it takes from it |
| `FifoLaws.SweepLaw` | src/hyperliquid_pipeline/sim/queue.py:348-361 | The sweep removes exactly the orders with nothing left and moves nobody |
| `LazyConsumption.LazyIsEager` | src/hyperliquid_pipeline/sim/queue.py:180-195 | For every sequence of prints in a block the EXACT counter emits the same fills, with the same reported queue-ahead, and shows the same queue-ahead as shrinking the real segments at once |
| `BlockPrints.BlockIsEager` | src/hyperliquid_pipeline/sim/queue.py:138-156 | Over any prints of a block, at any prices, the EXACT simulator emits fill for fill what a simulator that shrinks real volume at once emits, ends as its twin, and reports the same queue-ahead |
| `LazyConsumption.PrintCommutes` | src/hyperliquid_pipeline/sim/queue.py:284-321 | Settling the counter and printing commute, for prints at the price and through it |
| `LazyConsumption.SplitPrint` | src/hyperliquid_pipeline/sim/queue.py:284-321 | In both modes a print of s1 followed by one of s2 pays every order what one print of s1+s2 does |
| `BlockPrints.SplitTrade` | src/hyperliquid_pipeline/sim/queue.py:138-156 | On the whole simulator, in every mode and with traded-through levels included, a print in two pays every order what it pays in one, and leaves as much of it open |
| `Priority.PriceTimePriority` | src/hyperliquid_pipeline/sim/queue.py:138-156 | A print fills our orders at better prices in full and drops their levels, fills an order at its price with exactly what unconsumed real and earlier own volume leaves, and touches no other level |
| `Priority.FillsInPriority` | src/hyperliquid_pipeline/sim/queue.py:253-255 | A print's fills are emitted best price first and, at one price, oldest quote first |
| `Priority.AtPriceShare` | src/hyperliquid_pipeline/sim/queue.py:284-321 | An order's share of a print at its price, in closed form, in either mode |
| `Priority.AheadNeverGrows` | src/hyperliquid_pipeline/sim/queue.py:180-195 | In the three L2 modes no trade, book, place or cancel raises an open order's queue-ahead, and after a book it is at most what the level shows |
| `Priority.ExactPrintShrinksAhead` | src/hyperliquid_pipeline/sim/queue.py:180-195 | In EXACT mode no print raises an open order's queue-ahead |
| `FillReports.FillsReportTheQueue` | src/hyperliquid_pipeline/sim/queue.py:323-346 | Every fill names an open order and its level, is at most what is open, and carries the queue-ahead that order would have reported the moment before the print |
| `Allocation.AllocateAtLevel` | src/hyperliquid_pipeline/sim/fills.py:52-77 | The stateless split: queue ahead first, then own orders in placement order; the parts sum to the print or to everything there |
| `Allocation.AllocationIsTheWalk` | src/hyperliquid_pipeline/sim/fills.py:52-77 | When own orders stand next to each other the FIFO walk gives each exactly its stateless share |
| `QueueInvariant.RunInvariant` | src/hyperliquid_pipeline/sim/queue.py:96-176 | After every finite run each registered id has its one segment at its registered level and nowhere else, every tracked level is quoted, ids are sequential, and both fill counters count what was emitted |
| `QueueInvariant.StepKeepsInv` | src/hyperliquid_pipeline/sim/queue.py:96-176 | One step of any kind keeps that invariant |
| `QueueInvariant.OneSegment` | src/hyperliquid_pipeline/sim/queue.py:43-70 | A level in order holds exactly one segment of an order it lists, of the order's remaining size |
| `QueueInvariant.OrderAccount` | src/hyperliquid_pipeline/sim/queue.py:138-156 | Placed size = fills + remaining while open; an order leaves the registry only filled in full or cancelled; no order is overfilled |
| `QueueInvariant.OnTradeLaw` | src/hyperliquid_pipeline/sim/queue.py:138-156 | A print changes exactly the levels it reaches, and what every order loses it is paid |
| `QueueInvariant.BestFirstLaw` | src/hyperliquid_pipeline/sim/queue.py:253-255 | The levels of a side are walked each once, best price first |
| `ExactMode.DiffAgreesIff` | src/hyperliquid_pipeline/sim/queue.py:370-403 | One diff keeps a tracked level equal to the book's queue there if and only if it is faithful: not a re-announced or size-less new there, not an edit priced elsewhere than the order rests |
| `ExactMode.ReannouncedDiffers` | src/hyperliquid_pipeline/sim/queue.py:370-403 | A re-announced order: the tracked level keeps the old one and adds another, the book keeps the new one alone |
| `ExactRuns.TrackedLevelsAreTheBook` | src/hyperliquid_pipeline/sim/queue.py:370-403 | Over any well-formed stream, erasing our segments from a tracked level gives exactly the book's FIFO queue at that price after every event |
| `ExactRuns.QueueAheadIsAPosition` | src/hyperliquid_pipeline/book/l4_book.py:179-212 | Queue-ahead is the size ahead that a real order placed at the same moment would have in the book, less what this block's prints consumed, which is nothing right after a book |
| `ExactRuns.OwnViewShows` | src/hyperliquid_pipeline/book/l4_book.py:198-212 | An order-level book's own view shows exactly its orders, as such streams require |
| `Simulator.QueueSim.Place` | src/hyperliquid_pipeline/sim/queue.py:96-116 | The method on level objects does what the placing function says: seeds an untracked level from the view, appends behind our earlier orders |
| `Simulator.QueueSim.Cancel` | src/hyperliquid_pipeline/sim/queue.py:118-134 | Removes the order's segment and a level left unquoted; false for an order already gone |
| `Simulator.QueueSim.OnTrade` | src/hyperliquid_pipeline/sim/queue.py:138-156 | The best-first walk over level objects emits the fills and leaves the state of the print function |
| `Simulator.QueueSim.OnBook` | src/hyperliquid_pipeline/sim/queue.py:158-176 | Settles by diffs in EXACT mode, reconciles otherwise, and counts crossed orders, as the book function says |
| `Simulator.QueueSim.FillAtPrice` | src/hyperliquid_pipeline/sim/queue.py:284-321 | The loop over segments with budget and skip leaves the walked and swept level and emits its fills |
| `Simulator.QueueSim.FillThrough` | src/hyperliquid_pipeline/sim/queue.py:257-282 | The loop that fills everything of ours at a traded-through level |
| `Simulator.QueueSim.RemoveReal` | src/hyperliquid_pipeline/sim/queue.py:417-450 | The three in-place removals equal their specification |
| `Simulator.QueueSim.ReconcileL2Levels` | src/hyperliquid_pipeline/sim/queue.py:405-415 | Every tracked level object ends reconciled to its visible size |
| `Simulator.QueueSim.ApplyExactDiffs` | src/hyperliquid_pipeline/sim/queue.py:370-403 | Zeroes every counter, then applies the block's diffs to tracked levels and counts untracked ones |
| `Simulator.QueueSim.QueueAhead` | src/hyperliquid_pipeline/sim/queue.py:180-195 | The skipping loop returns the unconsumed real size ahead; none for an unknown id |
| `Simulator.QueueSim.OpenOrders` | src/hyperliquid_pipeline/sim/queue.py:197-213 | Every open order once, by ascending id, with its remaining size and queue-ahead |
| `Simulator.QueueSim.CountCrossed` | src/hyperliquid_pipeline/sim/queue.py:452-466 | Counts exactly the registered orders at or through the opposite touch |
| `L4.L4Book.Insert` | src/hyperliquid_pipeline/book/l4_book.py:252-271 | A new order goes to the back of its level; a re-announced one is cancelled and replaced, with an anomaly |
| `L4.L4Book.Delete` | src/hyperliquid_pipeline/book/l4_book.py:273-279 | Removing an order keeps oid index, non-empty levels and cached totals consistent with the flat order list |
| `L4.L4Book.ApplyUpdate` | src/hyperliquid_pipeline/book/l4_book.py:287-327 | An in-place resize with every error branch: unknown oid, unparsable size, mismatched original size, resize to zero |
| `L4.L4Book.ApplyDiff` | src/hyperliquid_pipeline/book/l4_book.py:95-117 | A diff does to the structured book what it does to the flat arrival-ordered list; a foreign coin's diff only leaves an anomaly |
| `L4.L4Book.ApplyBlock` | src/hyperliquid_pipeline/book/l4_book.py:119-135 | A block flags a height gap, applies its diffs and takes over height and clock |
| `L4.L4Book.LoadSnapshot` | src/hyperliquid_pipeline/book/l4_book.py:73-93 | A snapshot replaces the orders, bids before asks, and is the only thing that clears the stale flag |
| `L4.L4Book.Complain` | src/hyperliquid_pipeline/book/l4_book.py:246-250 | The anomaly count is exact while the list keeps only the newest thousand |
| `L4.L4Book.Best` | src/hyperliquid_pipeline/book/l4_book.py:139-149 | The best level of a side answers the flat list's first row |
| `L4.L4Book.Mid` | src/hyperliquid_pipeline/book/l4_book.py:151-156 | The mid of the flat list's best rows; none when a side is empty |
| `L4.L4Book.DepthSide` | src/hyperliquid_pipeline/book/l4_book.py:158-169 | The top n rows of a side, none for a negative n, each the sum and count of the orders resting there |
| `L4.L4Book.IsCrossed` | src/hyperliquid_pipeline/book/l4_book.py:171-175 | Crossed exactly when the flat list's best bid is at or above its best ask |
| `L4.L4Book.QueuePosition` | src/hyperliquid_pipeline/book/l4_book.py:179-196 | How many orders and how much size stand ahead of an order at its price; none exactly for an order not resting |
| `L4.L4Book.LevelOrders` | src/hyperliquid_pipeline/book/l4_book.py:198-212 | The FIFO queue of one price |
| `L4.L4Book.Count` | src/hyperliquid_pipeline/book/l4_book.py:229-231 | The number of indexed orders is the length of the flat list |
| `BookState.BestRow` | src/hyperliquid_pipeline/book/l4_book.py:139-149 | The first row is the best price any resting order of that side has, with everything resting there |
| `BookState.RowsSorted` | src/hyperliquid_pipeline/book/l4_book.py:158-169 | Rows are strictly best first |
| `BookState.RowsComplete` | src/hyperliquid_pipeline/book/l4_book.py:158-169 | A price has a row exactly when orders rest there, and the row reports all of them |
| `BookState.StaleIffGap` | src/hyperliquid_pipeline/book/l4_book.py:119-135 | After any blocks the book is stale if and only if it was, or some block did not follow the previous height by one |
| `L2.L2Book.UpdateFromSnapshot` | src/hyperliquid_pipeline/book/l2_book.py:47-60 | The whole book is replaced; each malformed level is skipped and counted once |
| `L2.SortLaw` | src/hyperliquid_pipeline/book/l2_book.py:105-117 | The parsed side is best first, a permutation of the levels kept, and stable within a price |
| `L2.FullDepthAgrees` | src/hyperliquid_pipeline/book/l2_book.py:62-94 | Fed the full depth of any order-level book, the aggregated book answers best, mid, depth and crossed identically |
| `L2.VisibleIsTheLevel` | src/hyperliquid_pipeline/sim/queue.py:246-251 | The size the simulator sees at a price in an order-level book's view is the sum of what rests there |
| `NodeFeed.NodeDiffFeed.ProcessItem` | src/hyperliquid_pipeline/collectors/node_feed.py:236-266 | On book objects, with demultiplexing and creation on first use, one item does exactly what the feed's specification says |
| `NodeFeed.NodeDiffFeed.Demultiplex` | src/hyperliquid_pipeline/collectors/node_feed.py:251-254 | Splits a block's allowed diffs by coin, keeping their order and losing none |
| `ReplayLoop.Replay` | src/hyperliquid_pipeline/book/replay.py:50-118 | The single-coin loop on a book object, with its applied and skipped counters |
| `FeedState.FeedIsReplay` | src/hyperliquid_pipeline/collectors/node_feed.py:236-266 | Whatever coins the stream interleaves, an allowed coin starting from the same book ends with the same orders, height, stale flag, clock and anomalies as in single-coin replay |
| `FeedState.SeedsAgree` | src/hyperliquid_pipeline/book/replay.py:60-64 | A feed book and a replay book loaded from one snapshot start equal |
| `FeedState.BlockAlignsHeights` | src/hyperliquid_pipeline/collectors/node_feed.py:256-265 | After a block every tracked book stands at that block's height and time |
| `FeedState.FeedStaleIffGap` | src/hyperliquid_pipeline/collectors/node_feed.py:256-265 | A tracked book is stale if and only if it was, or some block of the whole stream did not follow the previous one by one |
| `Batching.BatchingStorage.Accept` | src/hyperliquid_pipeline/storage/database.py:634-654 | One critical section of a writer is one Write step of the machine: append, drop the oldest over the cap, count them; it says whether to flush |
| `Batching.BatchingStorage.Take` | src/hyperliquid_pipeline/storage/database.py:663-667 | Taking the buffer is one BeginFlush step, and the batch taken is the one then in flight |
| `Batching.BatchingStorage.EnforceCap` | src/hyperliquid_pipeline/storage/database.py:621-632 | Keeps the newest points up to the cap and counts the others |
| `Batching.BatchingStorage.Requeue` | src/hyperliquid_pipeline/storage/database.py:670-673 | A refused batch goes back in front in its original order, then the cap is enforced: one FlushFailed step |
| `Batching.BatchingStorage.Settle` | src/hyperliquid_pipeline/storage/database.py:676-685 | What follows the inner store's count is one FlushAnswered step: none stored puts the batch back, anything else is done with it |
| `Batching.NothingLost` | src/hyperliquid_pipeline/storage/database.py:634-685 | From an empty store, under every interleaving of writers and concurrent flushes and any inner store, accepted = stored + in flight + buffered + dropped + left out by the inner store, as multisets; the buffer is within its cap whenever the lock is free, and the dropped count is exact |
| `Batching.LostIffInPart` | src/hyperliquid_pipeline/storage/database.py:676-685 | Points go missing uncounted if and only if the inner store takes some of a batch and leaves some out |
| `Batching.NoDropWithinCap` | src/hyperliquid_pipeline/storage/database.py:621-632 | As long as no more was accepted than the buffer holds nothing is dropped, however the flushes go |
| `ArrivalOrder.StepInTurnIff` | src/hyperliquid_pipeline/storage/database.py:656-685 | Of distinct points standing in order of arrival, with every batch in flight non-empty: they still do after a step if and only if a batch is stored only as the oldest in flight, and goes back only as the youngest or onto a full buffer |
| `ArrivalOrder.OrderIffInTurn` | src/hyperliquid_pipeline/storage/database.py:634-685 | From an empty store, under every interleaving: distinct points (stored, then in flight oldest first, then buffered) stand in order of arrival at every step if and only if every step is in turn |
| `ArrivalOrder.InTurnKeepsOrder` | src/hyperliquid_pipeline/storage/database.py:656-685 | A step in turn keeps the order whatever the points, repeated ones included |
| `ArrivalOrder.OutOfTurnBreaksOrder` | src/hyperliquid_pipeline/storage/database.py:656-685 | A step out of turn puts two distinct points the wrong way round |
| `ArrivalOrder.ArrivalOrderKept` | src/hyperliquid_pipeline/storage/database.py:656-685 | With one flush at a time, or overlapping flushes whose answers are successes for the oldest, any points end in order of arrival |
| `ArrivalOrder.OverlapBreaksOrder` | src/hyperliquid_pipeline/storage/database.py:656-685 | Two overlapping flushes of any two batches that fit, answered younger first, are out of turn, and leave the batches in order only if they read the same either way round |
| `ReplayEngine.Engine.Run` | src/hyperliquid_pipeline/sim/engine.py:75-155 | The event loop on a simulator object leaves exactly the specification's state: funding, due actions, trades, book, eviction, ledger, policy |
| `ReplayEngine.Engine.EvictAll` | src/hyperliquid_pipeline/sim/engine.py:124-128 | A stale block cancels every open order, oldest id first, counting each |
| `ReplayEngine.Engine.ApplyFill` | src/hyperliquid_pipeline/sim/engine.py:165-177 | One fill moves inventory, cash and fees by its size, notional and fee |
| `EngineState.LedgerBalances` | src/hyperliquid_pipeline/sim/engine.py:94-138 | After every event cash + fees + funding = sold less bought notional, and inventory is bought less sold size |
| `EngineState.AppliedOnceWhenRipe` | src/hyperliquid_pipeline/sim/engine.py:106-151 | Each action submitted is applied exactly once or still pending, and it is applied at the first block after its submission whose time has reached submission + delay |
| `EngineState.AppliedInOrder` | src/hyperliquid_pipeline/sim/engine.py:106-151 | With block times that never go back, applied actions followed by pending ones are the submissions in order |
| `EngineState.EvictedIsEmpty` | src/hyperliquid_pipeline/sim/engine.py:124-128 | After the eviction step of a stale block no order is open and no level is tracked |
| `EngineState.BlockCountsPlaces` | src/hyperliquid_pipeline/sim/engine.py:106-128 | A block, stale or not, places exactly as many orders as its due actions ask for |
| `EngineState.StaleBlockActsIff` | src/hyperliquid_pipeline/sim/engine.py:106-128 | At any point of a pass, the simulator a block's prints meet differs from the one before the block if and only if some due action places an order or cancels one open when its turn comes |
| `EngineState.StaleViewSeesAPlace` | src/hyperliquid_pipeline/sim/types.py:17-18 | A pass of two books, the second stale: the quote answered to the first rests on the stale block as order 1 and is gone after its eviction |
| `EngineState.RunKeepsInv` | src/hyperliquid_pipeline/sim/engine.py:75-155 | Over every run, for every policy, the simulator under the engine keeps its invariant, and a run that ends on a stale block ends with nothing open |
| `EngineScript.PassIsItsScript` | src/hyperliquid_pipeline/sim/engine.py:75-155 | The simulator and the fills of every engine pass are those of one simulator script: each block's due actions, prints, book and evictions in turn |
| `EngineScript.PassPlacesAfterBooks` | src/hyperliquid_pipeline/sim/types.py:14-16 | That script places orders only after a book and before the next print |
| `EngineScript.PassAccount` | src/hyperliquid_pipeline/sim/engine.py:75-155 | In every pass an order's fills and remainder make up the size it was placed with while it is open, and it leaves only filled in full or cancelled |
| `EngineScript.PassFillsReport` | src/hyperliquid_pipeline/sim/engine.py:113-116 | Every fill of a pass was made by a print of its script and carries the queue-ahead its order would have reported the moment before |
| `EngineScript.PassesAreOrdered` | src/hyperliquid_pipeline/sim/types.py:32-38 | Over one tape without stale blocks and one series of policy answers, safe scripts order the fills of two passes as the bracket says |
| `Bucketize.Bucketize` | src/hyperliquid_pipeline/sim/sweep.py:192-251 | For any bucket width the two-cursor loop's PnLs sum to what the fills up to the last mid's time are worth at that mid, and its counts to their number; no buckets when the mids span no time |
| `SweepCell.CellBuckets` | src/hyperliquid_pipeline/sim/sweep.py:160-189 | Of a pass without funding: counts sum to the fills if and only if no print stamped after the last block fills us; PnLs fall short of the engine's total by exactly what such fills are worth; with every print stamped at or before the book that plays it both are exact |
| `SweepCell.MergedStreamsPlayOnTime` | src/hyperliquid_pipeline/sim/events.py:41-65 | Every stream merged in time order has its prints stamped at or before the book that plays them |
| `SweepCell.PassFillsLateIff` | src/hyperliquid_pipeline/sim/engine.py:113-119 | A pass has a fill stamped after a time exactly when a played print stamped after it fills something |
| `LateFill.BucketsMissALateFill` | src/hyperliquid_pipeline/sim/sweep.py:195-197 | A concrete stream whose pass earns 1 on one fill and whose buckets hold none of it |
| `Bucketize.RunLedgerOfFills` | src/hyperliquid_pipeline/sim/engine.py:165-177 | Without funding the engine's cash and inventory are those of its fills alone, and its mids run in time order up to its last mid |
| `Bucketize.SortSums` | src/hyperliquid_pipeline/sim/sweep.py:208-208 | Sorting the fills by time changes no sum and no count |
| `SweepCell.FillsCarryTheStamp` | src/hyperliquid_pipeline/sim/queue.py:323-346 | Every fill carries the stamp of the print that made it |
| `Backtest.ExtractTrades` | src/hyperliquid_pipeline/backtest/engine.py:70-108 | The nested loops end and return exactly one trade per run of the position series, with its times, side, prices, compounded return, length and open flag |
| `Backtest.HeldPartition` | src/hyperliquid_pipeline/backtest/engine.py:70-108 | Those runs are the maximal same-sign ones, in order and disjoint, and every held bar is in one of them |
| `Backtest.PartitionUnique` | src/hyperliquid_pipeline/backtest/engine.py:70-108 | There is only one way to cut a position series into its maximal runs |
| `Backtest.RunBacktest` | src/hyperliquid_pipeline/backtest/engine.py:111-173 | The input checks in order, and the position, net-return, equity and trade series they lead to |
| `BacktestLaws.TradesAndFlatsMakeTheCurve` | src/hyperliquid_pipeline/backtest/engine.py:73-108 | Final equity over capital is the trades' returns compounded with the flat bars' own returns |
| `BacktestLaws.TradesTieOutIff` | src/hyperliquid_pipeline/backtest/engine.py:73-108 | The trades' returns alone tie out to the curve if and only if some held bar lost everything, trading is free, or the position never returns to flat |
| `BacktestLaws.ExitCostIsOutsideTheTrade` | src/hyperliquid_pipeline/backtest/engine.py:73-76 | One bar held and left at a positive cost: final equity is not the trades' compounded return on the capital |
| `BacktestLaws.RuinIsFinal` | src/hyperliquid_pipeline/backtest/engine.py:159-163 | Equity never changes sign, is zero exactly from the first wiped-out bar on, and never recovers |
| `BacktestLaws.NoLookahead` | src/hyperliquid_pipeline/backtest/engine.py:142-163 | Positions and equity up to bar i depend on no signal from bar i on and on no later close |
| `BacktestLaws.FullLongReturn` | src/hyperliquid_pipeline/backtest/engine.py:82-108 | A trade fully long at no cost returns exactly exit price over entry price |
| `Ofi.OfiSeries` | src/hyperliquid_pipeline/research/ofi.py:172-187 | The loop computes the contribution of each consecutive pair, stamped with the later time |
| `Ofi.StillTouchTelescopes` | src/hyperliquid_pipeline/research/ofi.py:172-187 | While the touch prices stand still the flow adds up to the net change in bid depth less that in ask depth |
| `Ofi.MirrorNegates` | src/hyperliquid_pipeline/research/ofi.py:172-187 | Swapping the two sides of every book turns the total flow around |
| `Ofi.AggregateWindows` | src/hyperliquid_pipeline/research/ofi.py:190-200 | Aligned windows in time order, exactly those that saw an event, each with its own events' flow, and nothing lost in total |
| `Ofi.DecileTable` | src/hyperliquid_pipeline/research/ofi.py:318-345 | Up to ten non-empty contiguous chunks that make up the ranking exactly, sizes within one of each other, means that times their count give the chunk sums, and mean flow that never falls |
| `RollingOfi.RollingOfiSignal.Update` | src/hyperliquid_pipeline/sim/policy.py:70-104 | For nondecreasing times the deque's sum is the batch series' flow since t - window; the normaliser and the capped signal follow it; a one-sided view changes nothing |
| `RollingOfi.RollingOfiSignal.Trim` | src/hyperliquid_pipeline/sim/policy.py:94-95 | Popping old events from the front keeps exactly the young ones of a deque in time order |
| `RollingOfi.WindowMoves` | src/hyperliquid_pipeline/sim/policy.py:78-96 | Appending one event and trimming takes one window of the batch series to the next |
| `Latency.LatencyHistogram.Record` | src/hyperliquid_pipeline/utils/latency.py:44-56 | Counts, total, extremes and the negative count stay those of all latencies recorded, clamped at zero |
| `Latency.LatencyHistogram.Percentile` | src/hyperliquid_pipeline/utils/latency.py:58-74 | The cumulative loop returns the first boundary at which the count reaches its share, else the maximum; none without samples |
| `Latency.PercentileBrackets` | src/hyperliquid_pipeline/bench/ws_latency.py:66-71 | For 0 < q <= 1 the histogram's answer is the boundary of the bucket that holds what `exact_percentile` answers: it is at least that, and that lies strictly above the previous boundary |
| `Latency.NoShare` | src/hyperliquid_pipeline/utils/latency.py:58-74 | For q <= 0 the exact answer is the smallest sample, and the histogram's bounds it if and only if that sample is at most the first boundary |
| `Latency.KthAtMost` | src/hyperliquid_pipeline/bench/ws_latency.py:66-71 | In sorted samples the k-th is at most x exactly when at least k samples are |

## Left out

- Rounding: sizes, cash and returns are exact reals, so `_EPS` guards become comparisons with zero and "to the float
  digit" becomes equality.
- Decimal and JSON parsing: prices arrive as tick counts; a size that does not parse is an absent one, and a diff with
  a price that does not parse is not modelled.
- Live views: the capture and order-level sources update one shared view before they yield it, so an order placed at
  the start of a block can seed from that block's book. The queue theorems are about frozen views, not about that
  composition of engine and sources.
- Feedback through the policy: fills change a policy's later actions, so the bracket is about one common script; the
  engine's claims hold for every policy because its answers are arbitrary.
- `depth(10000)` as "every level": a view with more levels than that is read whole here.
- Floor.PessimisticIsAFloor: assumes harmless cancels, because others can make the claim false;
  Floor.OrderedIffSafe has the exact condition on each cancel.
- ExactFloor.PessimisticIsAGenuineFloor: assumes harmless cancels and blocks, because others can make the claim false;
  ExactFloor.FloorIffSafe has the exact condition on each.
- EngineScript.PassesAreOrdered: assumes no stale block, because what one evicts depends on what is still open, and so
  the two scripts can differ.
- ArrivalOrder.OrderIffInTurn: assumes distinct points, because equal ones can change places unseen; a run in turn keeps
  the order of any points (ArrivalOrder.InTurnKeepsOrder).
- Chain.FullChain: assumes each price is quoted at most once in the script; with several orders per price OPTIMISTIC
  need not fill more than PRORATA, and Floor.OrderedIffSafe has the exact condition on each book update and cancel.
- ExactRuns.TrackedLevelsAreTheBook: assumes well-formed diffs (no reused oid, edits priced where the order rests,
  parsable sizes); ExactMode.DiffAgreesIff is the exact condition diff by diff.
- L4.L4Book.Insert: a price or size that does not parse is refused by the source with a `bad_decimal` anomaly before
  anything is inserted; here prices and sizes are parsed, and an absent size has its own branch in the diff.
- L4.L4Book.ApplyUpdate: an original size that does not parse counts as absent, so its `bad_decimal` anomaly is not
  modelled; the orders kept are the same.
- L4.L4Book.ApplyDiff: the three known kinds only, so no `unknown_kind` anomaly, and no diff whose price does not
  parse; price levels are values inside a map, so aliasing of level objects and the sorted dictionary's own structure
  are not captured.
- L4.L4Book.LoadSnapshot: rows whose decimals do not parse are not modelled.
- NodeFeed.NodeDiffFeed.ProcessItem: the data points handed on after a block are not modelled.
- ReplayLoop.Replay: items arrive parsed, so the counter of lines that do not parse and the per-block hook are not
  modelled.
- Simulator.QueueSim.RemoveReal: segments are values inside a level's sequence, so the aliasing between a level's
  segments and the lists built from them is not captured.
- Batching.NothingLost: writers after `close` and the timer loop are not modelled; an inner store that raises is taken
  to have stored nothing.
- Bucketize.Bucketize: the bucket width is positive (zero raises in the source) and realized volatility is not modelled.
- SweepCell.CellBuckets: passes without funding; with it the buckets leave funding out by design.
- Backtest.RunBacktest: no close may rise from zero (the source would produce infinities), the strategy is the signal
  series it returned, and the summary metrics are not modelled.
- Ofi.AggregateWindows: the window is positive.
- Latency.LatencyHistogram.constructor: boundaries are sorted, which the source's bisection relies on.
- RollingOfi.RollingOfiSignal.Update: `alpha` is a parameter instead of `1 - 0.5 ** (1 / halflife)`.
- Statistics dictionaries, checksums, logging, callbacks, progress messages and the data points a feed emits.
- Regression statistics, Sharpe-like metrics, tercile labels, gate verdicts, PnL decomposition and report formatting.
- Sockets, files, object stores, databases, schedulers and command lines.
