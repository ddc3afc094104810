# Verified model of the trading system's core

A Dafny 4.11 model of the ledgers, the strategy scheduler, the order state machine, the caches and the
concurrency protocols of a live stock-trading system, with proofs of what they promise.
`dafny verify dfyconfig.toml` checks everything.

Objects that change in place are classes, loops are loops, and each method is tied to a function of the
old state; the main results are lemmas about those functions over every input, every run or every
interleaving. SQL tables are sequences of rows with increasing ids, strings are opaque (`Text`, any totally
ordered type would do), times and quantities are integers, prices and fractions are reals, a missing value
is an `Option`, and the 1e-9 tolerances are exact.

Where the code falls short of what its comments or names promise, the code is modelled as it is, the exact
condition is proved, and a concrete case is given:

- `SchedulerLoop`, `SchedulerStarvation`: the urgency sort is meant to prevent starvation, and does among strategies
  without holdings (`BoundedWaiting`). Holders skip the stagger gate and keep it shut. `StarvedIff` is the exact condition
  for any window; `GatedTurnWithin` gives intervals and pass times that guarantee a turn; `HolderStarvesIff`,
  `SlowPassesStarveTheRest` and `CarouselStarvesTheRest` give those that starve,
  and `TwoHoldersStarveAThird` a run of any length.
- `BrokerOrderMapper`: a half-rejected order whose rows stop reporting the remainder raises
  (`StepLegalIff`, `UnreportedRemainderRaises`).
- `StreamingStockRepo`: a failed flush drops its batch; memory and table still agree exactly when the batch was
  redundant, over whole runs and with prunes (`RunAgreesIff`, `DroppedMarkIsLost`). A restart restores the subscriptions,
  except that an emptied table brings the fallback codes back (`RestartRestoresIff`).
- `OhlcvRepository`: a read overlapping a write may cache stale rows (`OverlappedReadCoherentIff`,
  `CorrectedCloseIsStale`).
- `VirtualLedger`: the guard against processing a purchase again compares the clock reading of the new call, so once the
  second has passed it knows nothing but holdings (`RepeatOnForwardClockIff`, `SoldThenRepeatedLater`); within the second
  it fails once the row was split or its quantity updated (`ReplayIsNoopIffHeldOrUnsplit`, `UpdatedThenSoldReplay`,
  `PurchaseRecordedTwice`).
- `OverseasLedger`: a lot of negative quantity is accepted and then oversold (`NegativeLotOversells`).
- `SnapshotBackfill`: failed orders count as holdings for ever (`FailedTradesCountForEver`, `FailedTradesInSnapshots`,
  `FailedOrderMakesSnapshots`).
- `ForcedExit`: a tier is used up when it fires, even if its orders do not fill (`ProgressIgnoresFills`, `FlatIffSoldOut`,
  `UnfilledLastTierStaysOvernight`); a holding listed without units is sold at the configured order quantity
  (`OrdersWithinHoldingsIff`, `EmptyHoldingIsOrdered`).
- `SuspendResume`: once everybody is out, the pool stays suspended if an actor was cancelled waiting for the lock on its
  way out or inside suspend_all, and a task does if resume_all failed on it or was cancelled before it
  (`QuietMeansResumedIff`, `LeakIsReachable`, `LeakIsForever`, `CutShortResumeIsReachable`).
- `ForceExitRetry`: stopping can forget a retry reserved while the cancelled ones are awaited, exactly if one was already
  ordering when they were cancelled (`StopLeavesNoneWaitingIff`, `StopIsSafeIff`, `StopForgetsRetry`).
- `TradeJournal`: the same live object given twice is lost (`PartitionAlwaysIffDistinct`).

## Model

| member | source | states |
|---|---|---|
| `SnapshotBackfill.BackfillSnapshots` | repositories/virtual_trade_repository.py:1011-1176 | Present days are never rewritten; a missing day gets a snapshot iff something was bought by then, and that snapshot is the per-day definition (strategies with a positive cost, return rates, ALL); days before the cutoff go iff anything was added; fails iff a day is missing and some priced trade has no buy date |
| `SnapshotBackfill.FillTables` | repositories/virtual_trade_repository.py:1083-1143 | After all range updates every cell (day, strategy) of both arrays equals the per-day sum over the trades; stops exactly at a priced trade without a buy date |
| `SnapshotBackfill.AddTrade` | repositories/virtual_trade_repository.py:1087-1143 | Bisection, the HOLD range and the SOLD range together add to each day exactly what the trade contributes on that day, in its strategy column and nowhere else |
| `SnapshotBackfill.BisectLeft` | repositories/virtual_trade_repository.py:1105-1111 | The index splits the days into those before and those on or after the date |
| `SnapshotBackfill.AddRange` | repositories/virtual_trade_repository.py:1114-1120 | Adds the amount to exactly the rows of the range in one column |
| `SnapshotBackfill.AddPrices` | repositories/virtual_trade_repository.py:1123-1143 | Adds close times quantity to exactly the rows of the range, with the buy price where there is no close |
| `SnapshotBackfill.FillForward` | repositories/virtual_trade_repository.py:1053-1065 | Position k of the filled column is the last close on or before that calendar day, not looking before the first day |
| `SnapshotBackfill.AlignPrices` | repositories/virtual_trade_repository.py:1053-1085 | Every traded code with closes gets the column of its closes on the missing days |
| `SnapshotBackfill.IndexStrategies` | repositories/virtual_trade_repository.py:1072-1074 | Distinct strategies, each at its index, covering every trade |
| `SnapshotBackfill.TotalsAreSumsOverStrategies` | repositories/virtual_trade_repository.py:1151-1153 | The sum of a row over all strategies is the sum over all trades |
| `SnapshotBackfill.NothingWithoutTrades` | repositories/virtual_trade_repository.py:1163-1166 | A strategy without trades has sum zero, so it never appears in a snapshot |
| `SnapshotBackfill.DaySnapshot` | repositories/virtual_trade_repository.py:1145-1168 | One day: a snapshot iff the total cost is positive, and then the per-day one |
| `SnapshotBackfill.MissingDays` | repositories/virtual_trade_repository.py:1043-1046 | Exactly the calendar days without a snapshot, ascending |
| `SnapshotBackfill.MergeSnapshots` | repositories/virtual_trade_repository.py:1160-1169 | Only missing days are written, each iff its total cost is positive |
| `SnapshotBackfill.SnapshotTellsGrowth` | repositories/virtual_trade_repository.py:1087-1168 | In the columns of the trades: a strategy has an entry iff its buy price × units, over the trades bought by the day, sum to a positive cost, and then cost × (100 + entry) = 100 × the sum of worth × units, a trade sold by the day being worth its sale price and an open one its last close, with the buy price where there is none |
| `SnapshotBackfill.SnapshotTellsTotalGrowth` | repositories/virtual_trade_repository.py:1087-1168 | The same for ALL over the trades of every strategy |
| `SnapshotBackfill.ProfitShowsAsGain` | repositories/virtual_trade_repository.py:1087-1168 | One table: bought at 100 and sold at 110 shows +10%, bought at 100 and last closed at 130 shows +30%, both together +20% |
| `SnapshotBackfill.FailedTradesCountForEver` | repositories/virtual_trade_repository.py:1087-1143 | Failed orders leave a strategy cost on a day alone iff each has no price, no units, or a later date; otherwise they raise it |
| `SnapshotBackfill.FailedTradesInTotals` | repositories/virtual_trade_repository.py:1151-1153 | The same for the totals of the day |
| `SnapshotBackfill.FailedTradesInSnapshots` | repositories/virtual_trade_repository.py:1160-1169 | A day gets a snapshot, or a strategy an entry, that it should not have iff only failed orders weigh on it; without weight the snapshot is the right one |
| `SnapshotBackfill.FailedOrderMakesSnapshots` | repositories/virtual_trade_repository.py:1083-1169 | One failed order gives every later day a snapshot of an account that never bought anything |
| `OpenSignalScan.ScanOpenLots` | repositories/virtual_trade_repository.py:401-425 | The backward scan yields, newest first, exactly the stack of a forward last-in-first-out simulation that discards oversells |
| `OpenSignalScan.ScanStep` | repositories/virtual_trade_repository.py:404-425 | What one signal read backward does to the unmatched SELL quantity and the lot it leaves |
| `OpenSignalScan.OpenPositionOf` | repositories/virtual_trade_repository.py:399-435 | One pair: an open position iff something is held, of the held quantity, priced and dated by the newest open lot |
| `OpenSignalScan.LoadOpenSignalMap` | repositories/virtual_trade_repository.py:364-437 | A pair is recovered iff it is asked for and its forward-held quantity is positive; quantity and newest lot are those of the stack |
| `OpenSignalScan.GroupByPair` | repositories/virtual_trade_repository.py:386-397 | Each requested pair gets exactly its signals in order |
| `OpenSignalScan.RowIsSeenIff` | repositories/virtual_trade_repository.py:374-397 | Wherever it stands, a row is seen for a pair iff it was successful and has its strategy and code |
| `OpenSignalScan.OtherRowsDoNotCount` | repositories/virtual_trade_repository.py:374-435 | A failed row, or one of another strategy or code, changes neither quantity, price nor date recovered for a pair |
| `OpenSignalScan.RecoveredIsNewestOpen` | repositories/virtual_trade_repository.py:401-435 | Nothing is recovered iff nothing is held; otherwise price and date are those of one BUY, the last signal from which on something stays held |
| `Signals.StackTotalIsHeld` | repositories/virtual_trade_repository.py:399-435 | The stack total equals the fold h+q on BUY, max(0, h-q) on SELL, for every signal list |
| `Signals.PopTwice` | repositories/virtual_trade_repository.py:409-419 | Cancelling a then b open units is cancelling a+b |
| `Signals.NewestOpen` | repositories/virtual_trade_repository.py:404-430 | The newest open lot, without the stack: the last position such that the signals from it on leave something held, and those after it nothing |
| `Signals.LotsAreFromBuys` | repositories/virtual_trade_repository.py:404-430 | Every open lot comes from a BUY at a position where the signals from it on leave as much held as the lots from it on |
| `Signals.HeldIsNetAboveLowest` | scheduler/strategy_scheduler.py:1913-1966 | Open quantity is net quantity plus everything oversold on the way |
| `Signals.LowestNetIsMinimum` | scheduler/strategy_scheduler.py:1913-1936 | The lowest net is negative iff some prefix sells more than it bought |
| `Signals.HeldEqualsNetIff` | scheduler/strategy_scheduler.py:1913-1966 | Open quantity is at least net quantity, equal iff no prefix oversells |
| `SignalHistory.GetSignalNetQty` | scheduler/strategy_scheduler.py:1913-1936 | Net of the records selected by strategy, code, success and day; which those are is stated by OthersDoNotCount and OwnRecordMovesNet |
| `SignalHistory.GetLatestOpenBuyRecord` | scheduler/strategy_scheduler.py:1938-1967 | With non-negative quantities the backward search finds the top of the forward stack |
| `SignalHistory.OthersDoNotCount` | scheduler/strategy_scheduler.py:1913-1967 | Wherever it stands in the history, a record of another strategy, another code or another day, or a failed one where success is asked for, changes neither query nor what a force exit recovers |
| `SignalHistory.OwnRecordMovesNet` | scheduler/strategy_scheduler.py:1913-1936 | A record of the strategy, code and day itself moves the net by its quantity, up for a BUY and down for a SELL |
| `SignalHistory.LatestOpenIsLastHeld` | scheduler/strategy_scheduler.py:1938-1967 | The latest open BUY is the selected record from which on something stays held, and after which nothing does |
| `SignalHistory.PositiveNetHasOpenBuy` | scheduler/strategy_scheduler.py:1938-1966 | A record is found iff something is open, it is a BUY, and a positive net quantity guarantees one |
| `SignalHistory.TrimKeepsDayIff` | scheduler/strategy_scheduler.py:2418-2432 | One trim keeps a day iff it is today, nothing overflows, or nothing of that day is in the overflow |
| `SignalHistory.TodayUntouched` | scheduler/strategy_scheduler.py:2418-2432 | Over any run on a forward clock the records of the current day are those of the untrimmed history, in order |
| `SignalHistory.TodayQueriesUntouched` | scheduler/strategy_scheduler.py:1913-1966 | Hence both queries restricted to today answer as on the untrimmed history |
| `SignalHistory.TrimmedOrderAndSize` | scheduler/strategy_scheduler.py:2418-2432 | Trimming keeps the order; size is at most MAX_HISTORY plus the records of the day |
| `SignalHistory.SignalLog.RecordSignal` | scheduler/strategy_scheduler.py:2418-2432 | Appends and trims |
| `SignalHistory.RecoveryIsBacked` | scheduler/strategy_scheduler.py:1618-1660 | A code is recovered iff no BUY of it is under way and the broker and the net quantity are positive; the holding is the smaller of both, at most the open quantity, and has a successful BUY of the same strategy, code and day behind it |
| `SignalHistory.CandidateCodes` | scheduler/strategy_scheduler.py:1606-1617 | Exactly the codes with a successful BUY of the strategy that day, each once |
| `SignalHistory.GetForceLiquidationHoldings` | scheduler/strategy_scheduler.py:1589-1666 | Ledger holdings stay; another code is added iff it is recovered; without broker positions nothing is added |
| `SchedulerLoop.PassRuns` | scheduler/strategy_scheduler.py:480-551 | Without sort and loop: exactly which strategies a pass runs - every forced exit, every due holder, and the first gated one iff the gate is open and no holder is due |
| `SchedulerLoop.PassState` | scheduler/strategy_scheduler.py:519-551 | After a pass the last-run time is now for what ran and unchanged for the rest; the stagger clock moves iff something other than a forced exit ran |
| `SchedulerLoop.EvaluateMeaning` | scheduler/strategy_scheduler.py:480-512 | A strategy wants to run iff it is enabled and either exits on close with a tier pending, or is allowed, not kept back by the exit window, and its interval is over or it never ran; the entry tells holdings and overdue time |
| `SchedulerLoop.PassOrder` | scheduler/strategy_scheduler.py:514-551 | What runs in a pass runs in this order: forced exits, then holders, then the rest; within a kind by deadline, equal ones by configuration order |
| `SchedulerLoop.PassIsSafe` | scheduler/strategy_scheduler.py:480-525 | A pending forced exit always runs; without permission, or in the exit window, nothing else of that strategy does; nothing runs before its interval is over |
| `SchedulerLoop.EarliestDeadlineFirst` | scheduler/strategy_scheduler.py:502-525 | The gated strategy that runs has the earliest last_run+interval (ties in configuration order), no second one runs, and it starts at least STAGGER_INTERVAL_SEC after the recorded end |
| `SchedulerLoop.OpportunityIsUsed` | scheduler/strategy_scheduler.py:517-525 | With the gate open, no holder due and some gated candidate, a gated one does run |
| `SchedulerLoop.AtMostOnceBefore` | scheduler/strategy_scheduler.py:480-551 | While a due strategy waits, one that has run, in whatever way, gets no gated run before it |
| `SchedulerLoop.BoundedWaiting` | scheduler/strategy_scheduler.py:480-551 | Among n strategies a waiting candidate is passed over in at most n-1 open-gate passes; the gated runs before its own are at most n-1 and all different |
| `SchedulerStarvation.StarvedIff` | scheduler/strategy_scheduler.py:480-551 | Over any window of any run, gated strategies starve iff in every pass none is a candidate, or a holder is due by its interval and last run, or the last regular run ended less than the stagger interval ago |
| `SchedulerStarvation.GatedTurnIff` | scheduler/strategy_scheduler.py:480-525 | A pass gives a gated strategy its turn iff one is a candidate, the gate is open and no holder is due |
| `SchedulerStarvation.ClockIsLastEnd` | scheduler/strategy_scheduler.py:504-551 | The stagger clock before any pass is the end of the last run that was not a forced exit |
| `SchedulerStarvation.GatedTurnWithin` | scheduler/strategy_scheduler.py:480-553 | With m holders, passes at most P apart and every holder interval at least m gaps of 60 s + 2P, a window of m+1 gaps, a stagger interval and P with a gated candidate in each pass gives a gated turn |
| `SchedulerStarvation.CandidateRunsWithin` | scheduler/strategy_scheduler.py:480-553 | Then, with n strategies of positive interval, one that stays a candidate until it runs does run within n strides, a stride being that window and 2P |
| `SchedulerStarvation.WindowAndStride` | scheduler/strategy_scheduler.py:95-112 | Window and stride in seconds |
| `SchedulerStarvation.ChainOfHolderPasses` | scheduler/strategy_scheduler.py:480-553 | While gated strategies starve, passes with a due holder follow each other within 60 s + 2P |
| `SchedulerStarvation.DueTwice` | scheduler/strategy_scheduler.py:486-497 | A holder due in two passes has had its whole interval between them |
| `SchedulerStarvation.HolderStarvesIff` | scheduler/strategy_scheduler.py:480-551 | Over all timings, other strategies and blocked starting states, a holder whose runs take at least a given time starves the rest iff its interval is no longer than the stagger interval plus that time |
| `SchedulerStarvation.BusyHolderStarvesTheRest` | scheduler/strategy_scheduler.py:480-551 | With such an interval no gated strategy runs in any run |
| `SchedulerStarvation.BusyHolderBlocks` | scheduler/strategy_scheduler.py:517-551 | The stagger clock stays at least the run time ahead of the last run of such a holder, from any state in which it was |
| `SchedulerStarvation.SlowPassesStarveTheRest` | scheduler/strategy_scheduler.py:480-551 | Passes no closer than the interval of a holder starve the rest with any interval |
| `SchedulerStarvation.CarouselStarvesTheRest` | scheduler/strategy_scheduler.py:480-551 | m holders of interval m minutes, out of step, starve the rest in passes at any times that leave out no minute mark |
| `SchedulerStarvation.TwoHoldersStarveAThird` | scheduler/strategy_scheduler.py:99-553 | Two holders of interval 2 with runs of a second alternate in passes a second or two apart, for any number of passes, while a third strategy stays due and never runs |
| `SchedulerStarvation.SlowerHolderLeavesRoom` | scheduler/strategy_scheduler.py:480-551 | For every interval longer than the stagger interval plus the run time, some run of such a holder gives a gated strategy its turn |
| `SchedulerLoop.ByUrgencyMeaning` | scheduler/strategy_scheduler.py:514-515 | The stable descending sort is a reordering in which equal keys keep configuration order |
| `SchedulerLoop.DispatchMeaning` | scheduler/strategy_scheduler.py:517-551 | The dispatch loop over a sorted list runs exactly the chosen entries |
| `SchedulerLoop.DueMembers` | scheduler/strategy_scheduler.py:480-512 | The evaluations are exactly the strategies that want to run |
| `SchedulerLoop.StrategyScheduler.RunPass` | scheduler/strategy_scheduler.py:480-551 | The loop body computes the pass |
| `ForcedExit.HoldingFollowsSchedule` | scheduler/strategy_scheduler.py:660-681 | In every run of passes progress stays in [0,1], fired targets strictly increase whatever was missed, and the holding r after share c satisfies (1-c)Q <= r < (1-c)Q + tiers fired |
| `ForcedExit.ProgressIsGreatestReached` | scheduler/strategy_scheduler.py:660-681 | Progress is the largest share of any tier reached in any pass, in whatever order |
| `ForcedExit.FlatIffLastTierReached` | scheduler/strategy_scheduler.py:660-681 | A position is flat iff some pass reached a tier of 100% |
| `ForcedExit.ConfiguredTiersFlatten` | scheduler/strategy_scheduler.py:101-111 | With the configured tiers one pass between the last tier and the order cutoff flattens the position |
| `ForcedExit.TargetIsGreatest` | scheduler/strategy_scheduler.py:671-676 | No tier iff none is eligible, otherwise the greatest share whose time has come |
| `ForcedExit.PendingForceExitTier` | scheduler/strategy_scheduler.py:660-681 | The loop finds that tier and the share of the present holding to sell |
| `ForcedExit.StepKeepsBounds` | scheduler/strategy_scheduler.py:1563-1574 | One firing with floored sale keeps the bounds, one unit wider |
| `ForcedExit.OrdersWithinHoldingsIff` | scheduler/strategy_scheduler.py:1563-1574 | A firing orders no more of any code than is held iff every listed holding has units, or the configured order quantity comes to nothing |
| `ForcedExit.OrderWithinHoldingIff` | scheduler/strategy_scheduler.py:1563-1574 | The same for one listed holding |
| `ForcedExit.EmptyHoldingIsOrdered` | scheduler/strategy_scheduler.py:1563-1565 | A holding listed without units is sold at the configured order quantity |
| `ForcedExit.OrdersWithinHoldings` | scheduler/strategy_scheduler.py:1545-1587 | Even with a code listed twice: of such holdings no firing orders more than is held, and a full one orders exactly that |
| `ForcedExit.ProgressIgnoresFills` | scheduler/strategy_scheduler.py:531-534 | The tiers fired and the progress do not depend on what the orders fill |
| `ForcedExit.FlatIffSoldOut` | scheduler/strategy_scheduler.py:660-681 | Whatever fills, a position is flat iff the 100% tier fired and filled everything still held |
| `ForcedExit.FullFillsAreTheSchedule` | scheduler/strategy_scheduler.py:660-681 | If every order fills, the run is that of the schedule |
| `ForcedExit.NothingAfterLastTier` | scheduler/strategy_scheduler.py:669-670 | After the last tier has fired nothing is sold that day, whatever was left |
| `ForcedExit.UnfilledLastTierStaysOvernight` | scheduler/strategy_scheduler.py:531-544 | Ten units, an unfilled order 24 minutes before the close, any later passes: ten units stay |
| `ForcedExit.ForceLiquidateStrategy` | scheduler/strategy_scheduler.py:1545-1587 | One order per holding with a code and a positive floored quantity |
| `ForcedExit.OrdersAreReal` | scheduler/strategy_scheduler.py:1545-1587 | Every order names a code and sells a positive quantity |
| `ForcedExit.ForceExitProgress.SyncDate` | scheduler/strategy_scheduler.py:565-577 | A new date forgets all progress, the same date keeps it |
| `ForcedExit.ForceExitProgress.Take` | scheduler/strategy_scheduler.py:531-534 | Records the target before the orders are sent |
| `VirtualLedger.RunKeepsOneHold` | repositories/virtual_trade_repository.py:491-746 | Every run of buys, full and partial sells, quantity updates and failures keeps at most one HOLD row per strategy identity and code |
| `VirtualLedger.StepKeepsOneHold` | repositories/virtual_trade_repository.py:491-746 | So does each operation |
| `VirtualLedger.SetQtyTouchesAtMostOne` | repositories/virtual_trade_repository.py:680-695 | A quantity update finds at most one row, the newest HOLD one |
| `VirtualLedger.SaleConserves` | repositories/virtual_trade_repository.py:559-605 | A full or partial sale keeps HOLD+SOLD quantity of every strategy and code |
| `VirtualLedger.PartialSaleShape` | repositories/virtual_trade_repository.py:559-678 | A strategy sale leaves it holding iff it held more than it sold; it then holds the same purchase, HOLD down and SOLD up by what was sold, and no other strategy or code changes |
| `VirtualLedger.SettleTells` | repositories/virtual_trade_repository.py:559-623 | What a sale writes, column by column: a partial one leaves the row open with the rest and appends a SOLD row of the sold units, any other closes the row; the SOLD row has date, price and reason of the sale and buy price × (100 + rate) = 100 × sale price |
| `VirtualLedger.ReportedIsMoved` | repositories/virtual_trade_repository.py:568-605 | The quantity reported for a sale is what left HOLD and arrived in SOLD |
| `VirtualLedger.SellTwice` | repositories/virtual_trade_repository.py:559-678 | Selling a then b leaves the same open rows as selling a+b |
| `VirtualLedger.RepeatIsNoopIff` | repositories/virtual_trade_repository.py:465-537 | For any ledger and any clock reading of the call, a purchase is skipped iff its strategy holds the code or some row of it that did not fail has that very second, price and quantity |
| `VirtualLedger.RepeatOnForwardClockIff` | repositories/virtual_trade_repository.py:491-537 | Over every run dated before the reading of the call, a purchase is skipped iff its strategy holds the code |
| `VirtualLedger.ReplayGuardSurvivesIff` | repositories/virtual_trade_repository.py:465-537 | After any run, replaying a recorded purchase at a later or equal reading does nothing iff the code is held; or the second has not changed and the recorded row carries the purchased quantity; or a later row has that second, price and quantity |
| `VirtualLedger.UntouchedReplayIsNoopIff` | repositories/virtual_trade_repository.py:465-537 | In every run that never changes the quantity of the recorded row, the replay does nothing iff the code is still held or the second has not changed |
| `VirtualLedger.ReplayIsNoopIffHeldOrUnsplit` | repositories/virtual_trade_repository.py:465-605 | In every run without a quantity update or an identical purchase, the replay does nothing iff the code is still held, or the second has not changed and no sale split the row |
| `VirtualLedger.UpdatedThenSoldReplay` | repositories/virtual_trade_repository.py:465-695 | After an update to q and a whole sale the replay records the purchase again unless q is the purchased quantity and the second has not changed |
| `VirtualLedger.SplitThenSoldReplay` | repositories/virtual_trade_repository.py:465-605 | After a partial sale and a sale of the rest the replay records the purchase again, even within the second |
| `VirtualLedger.SoldThenRepeatedLater` | repositories/virtual_trade_repository.py:491-605 | Bought, sold whole and submitted again in a later second: recorded a second time with the same quantity |
| `VirtualLedger.PurchaseRecordedTwice` | repositories/virtual_trade_repository.py:491-695 | Within one second: buy 10, correct to 4, sell, replay; two rows of one purchase |
| `VirtualLedger.LatestHold` | repositories/virtual_trade_repository.py:607-624 | The newest selected HOLD row, or none iff there is none |
| `VirtualLedger.VirtualTradeRepository.Buy` | repositories/virtual_trade_repository.py:491-537 | Skipped iff already held or already recorded; otherwise appends an open row of the strategy with the purchase and empty sell columns |
| `VirtualLedger.VirtualTradeRepository.SettleHoldSale` | repositories/virtual_trade_repository.py:559-605 | In-place settlement and returned quantity |
| `VirtualLedger.VirtualTradeRepository.Sell` | repositories/virtual_trade_repository.py:607-728 | Settles the newest selected HOLD row |
| `VirtualLedger.VirtualTradeRepository.UpdateHoldQty` | repositories/virtual_trade_repository.py:680-695 | Updates iff the quantity is positive and the strategy is holding |
| `VirtualLedger.VirtualTradeRepository.OrderFailure` | repositories/virtual_trade_repository.py:734-744 | Adds a FAILED row under the strategy id, or under the label of the action if no strategy is given |
| `StrategyIdentity.FilterIsIdentity` | repositories/virtual_trade_repository.py:452-463 | The two-name clause finds exactly the rows of the same strategy identity |
| `StrategyIdentity.ConversionsKeepIdentity` | common/strategy_identity.py:80-92 | Both conversions keep the strategy and are idempotent |
| `StrategyIdentity.OverlapMixesStrategies` | common/strategy_identity.py:70-92 | If a display name is also an id the clause mixes strategies |
| `LedgerRepair.RepairIsCorrectSettlementIff` | scripts/repair_partial_sell_ledger.py:43-112 | Wrong full settlement followed by the repair equals the correct partial settlement iff the HOLD row had default sell fields |
| `LedgerRepair.RepairKeepsOneHoldIff` | scripts/repair_partial_sell_ledger.py:88-112 | A repair keeps the one-HOLD invariant iff the strategy is not holding the code again |
| `LedgerRepair.RepairAcceptedIff` | scripts/repair_partial_sell_ledger.py:43-112 | A repair is accepted iff the row is SOLD and some but not all of its units were filled, each refusal naming what fails first; an accepted one splits the quantity into two positive parts |
| `LedgerRepair.Apply` | scripts/repair_partial_sell_ledger.py:88-112 | Insert and rewrite of the two rows |
| `OverseasLedger.SoldIsMinIff` | repositories/overseas_trade_repository.py:117-175 | log_sell sells min(requested, held) iff enough is held or the running sum never reaches the request |
| `OverseasLedger.SoldIsMin` | repositories/overseas_trade_repository.py:117-175 | With no negative lot it always sells min(requested, held) |
| `OverseasLedger.NegativeLotOversells` | repositories/overseas_trade_repository.py:93-175 | Two purchases, of 3 and of -2 units, and a sale of 3: the table accepts both, holds 1 in all, and sells 3 |
| `OverseasLedger.OldestFirst` | repositories/overseas_trade_repository.py:127-173 | Whenever a lot is touched every older open lot of the symbol is sold off; rows of other symbols and rows not on HOLD never change |
| `OverseasLedger.SplitsAtMostOne` | repositories/overseas_trade_repository.py:144-170 | At most one lot is split and the inserted row carries exactly what its lot lost |
| `OverseasLedger.SaleDrains` | repositories/overseas_trade_repository.py:117-175 | A sale is a first-in-first-out drain of the open lots |
| `OverseasLedger.SellTwice` | repositories/overseas_trade_repository.py:117-175 | Selling a then b leaves the same HOLD lots as selling a+b |
| `OverseasLedger.SaleConserves` | repositories/overseas_trade_repository.py:117-175 | What leaves HOLD arrives in SOLD and is the quantity reported |
| `OverseasLedger.SaleTells` | repositories/overseas_trade_repository.py:138-173 | Each row a sale changes is a HOLD row of the symbol, sold off whole or reduced by what is split off it; a SOLD row has date, price and reason of the sale, and its rate is the return after 0.25% commission per side: buy × (100 + rate) = 100 × sell - 0.25 × (buy + sell) |
| `OverseasLedger.TouchedMeaning` | repositories/overseas_trade_repository.py:138-173 | A sale takes from the first open lots, so many that one fewer would not have been enough |
| `OverseasLedger.SaleEmptiesHolding` | repositories/overseas_trade_repository.py:127-175 | Held after a sale is held before minus sold; without a quantity and without a negative lot nothing is left |
| `OverseasLedger.PurchaseIsHeld` | repositories/overseas_trade_repository.py:93-115 | A purchase raises the held quantity of its symbol by its own and of no other symbol |
| `OverseasLedger.RunConserves` | repositories/overseas_trade_repository.py:93-222 | Over any run bought = HOLD + SOLD + CANCELED + removed by adjust_qty, which never adds |
| `OverseasLedger.SellLots` | repositories/overseas_trade_repository.py:138-175 | The loop over the lots computes the sale, and reports the net return of every lot it takes from, in order |
| `OverseasLedger.ProcessMeaning` | repositories/overseas_trade_repository.py:138-175 | Any prefix of the loop plus the sale of the rest is the whole sale |
| `OverseasLedger.OverseasTradeRepository.LogBuy` | repositories/overseas_trade_repository.py:93-115 | Appends a HOLD lot |
| `OverseasLedger.OverseasTradeRepository.LogSell` | repositories/overseas_trade_repository.py:117-175 | Rewrites the table by the sale; the reported quantity is what left HOLD, and the reported rates are the net returns of the lots taken from, oldest first |
| `OverseasLedger.OverseasTradeRepository.MarkCanceled` | repositories/overseas_trade_repository.py:190-202 | Succeeds iff there is a HOLD row with the id, and then makes exactly that row CANCELED with the reason |
| `OverseasLedger.OverseasTradeRepository.AdjustQty` | repositories/overseas_trade_repository.py:204-222 | Succeeds iff there is a HOLD row with the id that holds at least the filled quantity; then exactly that row gets it, or is CANCELED if it is 0 |
| `OverseasLedger.CancelChangesOne` | repositories/overseas_trade_repository.py:190-202 | Exactly the HOLD row with the id changes, to CANCELED with the reason |
| `OverseasLedger.AdjustChangesOne` | repositories/overseas_trade_repository.py:204-222 | Exactly the HOLD row with the id changes, to the filled quantity with the reason |
| `OrderFsm.RunKeepsConsistency` | common/types.py:147-230 | Every accepted run keeps the order quantity, the derived remainder and recorded <= filled |
| `OrderFsm.CreatedOrderStaysConsistent` | common/types.py:147-198 | Construction keeps what it is given and derives the remainder, and every accepted run of the new order keeps it right |
| `OrderFsm.RunMovesForward` | common/types.py:154-176 | The machine is acyclic: at most three changes of state, only forward |
| `OrderFsm.TerminalIsFinal` | common/types.py:154-176 | From a terminal state a run is accepted iff it only repeats that state |
| `OrderFsm.TransitionIff` | common/types.py:154-175 | A transition is allowed iff it stays, or moves forward without a fill before submission or a rejection after a partial fill |
| `OrderFsm.FillsFollowSubmission` | common/types.py:154-198 | In every accepted run a filled order was submitted on the way, and a partially filled one is never rejected |
| `OrderFsm.RunRemembers` | common/types.py:177-230 | After an accepted run the state is the last target and the entry time that of the last change of state |
| `OrderFsm.RunQuantities` | common/types.py:177-230 | After an accepted run the filled quantity is the last one given or the one at the start; the recorded one is the least of the last one given (or the one at the start) and every filled quantity since |
| `OrderFsm.AlertFollowsState` | common/types.py:177-230 | The stuck alert after a run is the last one given unless the state changed after it; a change of state clears it |
| `BrokerOrderMapper.ClassifyMeaning` | common/broker_order_response_mapper.py:80-108 | On truthful rows with a remainder the quantities alone decide the state |
| `BrokerOrderMapper.ClassifyUnreported` | common/broker_order_response_mapper.py:80-108 | The same for truthful rows without a remainder: filled only at the full quantity, canceled by the flag or if fills and cancellations make up the order |
| `BrokerOrderMapper.ClassifyUnknownQty` | common/broker_order_response_mapper.py:80-108 | The same for rows without the order quantity: filled iff the row says that nothing remains |
| `BrokerOrderMapper.StepLegalIff` | common/broker_order_response_mapper.py:80-108 | Two successive truthful rows map to an allowed transition iff closure is not lost |
| `BrokerOrderMapper.HistoryAcceptedIff` | common/broker_order_response_mapper.py:80-108 | A whole row sequence is a legal path of the FSM iff no adjacent pair loses closure |
| `BrokerOrderMapper.ReportedHistoryNeverRaises` | common/types.py:177-198 | If the remainder is always reported, transition never raises |
| `BrokerOrderMapper.UnreportedRemainderRaises` | common/broker_order_response_mapper.py:80-108 | Without it every order of which a part was filled and the rest rejected goes FILLED to PARTIAL and raises |
| `Cache.LfuCache.Get` | repositories/cache.py:127-140 | Counted hits raise the frequency; uncounted gets leave everything alone |
| `Cache.LfuCache.Put` | repositories/cache.py:142-160 | Evicts iff the cache is full and the key new; the victim has minimal frequency, ties to the oldest insertion; size stays within capacity |
| `Cache.LfuCache.EvictOne` | repositories/cache.py:147-153 | The victim is minimal by frequency and then by insertion |
| `Cache.LfuCache.Delete` | repositories/cache.py:162-166 | Removes value and frequency together |
| `Cache.LfuCache.Flush` | repositories/cache.py:168-173 | Empties the cache and the counters |
| `Cache.LruCache.Get` | repositories/cache.py:22-37 | Even an uncounted hit makes the key most recent |
| `Cache.LruCache.Put` | repositories/cache.py:39-50 | The victim is the least recently touched key; with capacity 0 it is the new one |
| `Cache.LruCache.Delete` | repositories/cache.py:52-56 | Removes the key |
| `Cache.LruCache.Flush` | repositories/cache.py:58-63 | Empties the cache and the counters |
| `Cache.GetsAreHitsPlusMisses` | repositories/cache.py:22-37 | Counted gets = hits + misses over any trace |
| `Cache.MinFrequencyKey` | repositories/cache.py:148-151 | First key of minimal frequency in insertion order |
| `Cache.FirstMinimumIsVictim` | repositories/cache.py:148-153 | It is the least used, oldest inserted resident key of the trace |
| `Cache.FrontIsLeastRecent` | repositories/cache.py:40-43 | The front of the recency order was touched strictly before every other key |
| `Cache.ByInsertionKept` | repositories/cache.py:142-160 | Any event but an insertion keeps insertion order |
| `Cache.MovedToEnd` | repositories/cache.py:36-41 | move_to_end keeps the order equal to last-touch order |
| `OhlcvRepository.StockOhlcvRepository.GetStockData` | repositories/stock_ohlcv_repository.py:157-225 | Returns a ticked suffix of the table rows of length at least min(limit, total); none iff no cached answer suffices and the table gives nothing. A hit answers with the whole cached history and leaves every entry and tick alone; a miss that finds rows stores them, resets the ticks of its own code, and drops another code only if the cache is full: the least used, oldest inserted one |
| `OhlcvRepository.StockOhlcvRepository.UpdateTodayCandle` | repositories/stock_ohlcv_repository.py:227-259 | A tick changes only the last cached candle of its code: close is the price, high and low contain it, a positive volume replaces the volume; nothing if the code is not cached |
| `OhlcvRepository.TickThenRead` | repositories/stock_ohlcv_repository.py:157-259 | A tick shows in the next read that the cache can answer: the whole cached history comes back, closing at the price of the tick |
| `OhlcvRepository.StockOhlcvRepository.UpsertOhlcv` | repositories/stock_ohlcv_repository.py:261-290 | A successful batch rewrites the table, drops exactly the touched codes and leaves the other entries as they are; a failed one changes nothing; every cached history stays a ticked suffix of its rows |
| `OhlcvRepository.TicksMeaning` | repositories/stock_ohlcv_repository.py:227-259 | Ticks change only close, high, low and volume of the last candle: the last price, the running extremes, and the last positive volume |
| `OhlcvRepository.UpsertAllMeaning` | repositories/stock_ohlcv_repository.py:261-290 | Rows stay date-ordered and every (code, date) holds the last record written for it |
| `OhlcvRepository.UpsertRowLookup` | repositories/stock_ohlcv_repository.py:268-277 | Upserting replaces exactly the candle of that date |
| `OhlcvRepository.SelectMeaning` | repositories/stock_ohlcv_repository.py:193-206 | The query returns a suffix of length between min(limit, total) and total |
| `OhlcvRepository.OverlappedReadCoherentIff` | repositories/stock_ohlcv_repository.py:157-290 | Rows read before and cached after a batch write are still a suffix iff, from the first date read, the last record of each date in the batch is one of the candles read |
| `OhlcvRepository.SuffixIff` | repositories/stock_ohlcv_repository.py:183-212 | Dated rows are a suffix iff they agree with the table on every date since their first |
| `OhlcvRepository.CorrectedCloseIsStale` | repositories/stock_ohlcv_repository.py:157-290 | A batch that corrects a candle already read leaves a stale read |
| `OhlcvRepository.WholeReadCoherentIff` | repositories/stock_ohlcv_repository.py:157-290 | The same condition for a read of the whole table |
| `StreamingStockRepo.StreamingStockRepo.LoadPtDesired` | repositories/streaming_stock_repo.py:112-158 | Memory becomes the table view; the leftover queue agrees with it iff it is redundant |
| `StreamingStockRepo.StreamingStockRepo.MarkDesired` | repositories/streaming_stock_repo.py:211-224 | Adds the code with its normalised source and keeps agreement |
| `StreamingStockRepo.StreamingStockRepo.UnmarkDesired` | repositories/streaming_stock_repo.py:226-233 | Removes it and keeps agreement |
| `StreamingStockRepo.StreamingStockRepo.FlushPtDesired` | repositories/streaming_stock_repo.py:167-207 | A successful flush makes the table equal memory; after a failed one they agree iff the dropped queue was redundant |
| `StreamingStockRepo.StreamingStockRepo.PruneOrphans` | repositories/streaming_stock_repo.py:235-255 | Removes precisely the unowned non-manual codes from memory; a failed flush drops the removals with the queue, and agreement survives iff that was harmless |
| `StreamingStockRepo.RunAgreesIff` | repositories/streaming_stock_repo.py:112-255 | Over every run of loads, marks, unmarks, prunes and flushes, successful or not, memory and table agree after every call iff every call was harmless |
| `StreamingStockRepo.StepAgreesIff` | repositories/streaming_stock_repo.py:112-255 | From agreement one call keeps it iff it is harmless: marks always, a load or failed flush iff the queue is redundant, a failed prune iff no removed code is stored and the rest is redundant |
| `StreamingStockRepo.RestartRestoresIff` | repositories/streaming_stock_repo.py:112-255 | After any run of harmless calls and a successful flush, a new repository that loads the table has the codes and sources of the old one, iff something is subscribed or there are no fallback codes |
| `StreamingStockRepo.OnlyManualIsKept` | repositories/streaming_stock_repo.py:91-98 | A marked code survives a prune iff it is owned or was marked by hand; an unknown source counts as legacy |
| `StreamingStockRepo.LoadedLabels` | repositories/streaming_stock_repo.py:112-155 | Loading takes the codes of the table, or of the fallback if it is empty; a program row stays one, a manual row iff it was ever stamped, everything else is legacy |
| `StreamingStockRepo.GivenCodes` | repositories/streaming_stock_repo.py:99-110 | A code is taken iff it is given and not empty |
| `StreamingStockRepo.LosingRemovalsHarmlessIff` | repositories/streaming_stock_repo.py:167-255 | Losing the queue and the removals after it is harmless iff no removed code is stored and every other last operation repeats the table |
| `StreamingStockRepo.DroppedMarkIsLost` | repositories/streaming_stock_repo.py:167-224 | A mark followed by a failed flush stays in memory only |
| `StreamingStockRepo.StreamingStockRepo.MarkActive` | repositories/streaming_stock_repo.py:257-262 | Takes the code off the pending set |
| `StreamingStockRepo.StreamingStockRepo.MarkInactive` | repositories/streaming_stock_repo.py:264-267 | Makes a desired code pending again |
| `StreamingStockRepo.StreamingStockRepo.ClearActive` | repositories/streaming_stock_repo.py:269-280 | Everything desired is pending again |
| `StreamingStockRepo.ReplayByLastOp` | repositories/streaming_stock_repo.py:180-200 | In a replay only the last operation of a code matters |
| `StreamingStockRepo.LosingQueueHarmlessIff` | repositories/streaming_stock_repo.py:167-207 | Losing the queue is harmless iff every last operation repeats what the table holds |
| `StreamingStockRepo.StampInvisible` | repositories/streaming_stock_repo.py:179-200 | The flush stamp does not show in the view |
| `StreamingStockRepo.Relabel` | repositories/streaming_stock_repo.py:127-137 | Loading rewrites the source of unstamped manual rows and nothing else |
| `SuspendResume.RunKeepsInv` | scheduler/foreground_scheduler.py:48-60 | Any actors, any interleaving: the count is the actors between increment and decrement plus leaks, suspend_all and resume_all strictly alternate, the pool is suspended iff the count is positive |
| `SuspendResume.StepKeepsInv` | scheduler/foreground_scheduler.py:48-60 | Each atomic step keeps it |
| `SuspendResume.ResumedOnlyByLastExit` | scheduler/background_scheduler.py:238-248 | A suspended task runs again only in the resume_all of the last actor out |
| `SuspendResume.SuspendedOnlyByFirstEntry` | scheduler/background_scheduler.py:226-236 | A task is suspended only in the suspend_all of the first actor in |
| `SuspendResume.QuietMeansResumedIff` | scheduler/foreground_scheduler.py:48-60 | Over every run, whenever everybody is out and the lock is free, pool and tasks are all resumed iff no action of the run leaked an entry and no task was left behind |
| `SuspendResume.QuietPoolIff` | scheduler/foreground_scheduler.py:48-60 | At such a moment the pool is suspended iff some actor was cancelled waiting for the lock to leave, or inside suspend_all |
| `SuspendResume.QuietTasksIff` | scheduler/background_scheduler.py:238-248 | If nothing leaked, a task is then suspended iff the last resume_all failed on it or was cancelled before reaching it, and it has not moved by itself since |
| `SuspendResume.LeakIsForever` | scheduler/foreground_scheduler.py:48-60 | Once an entry has leaked the pool stays suspended and resume_all is never called again |
| `SuspendResume.CutShortResumeIsReachable` | scheduler/foreground_scheduler.py:55-60 | Seven steps of one actor, the last its cancellation inside resume_all, leave a task suspended with count 0 and the pool resumed |
| `SuspendResume.LeakIsReachable` | scheduler/foreground_scheduler.py:48-60 | Five steps of one actor leak an entry |
| `SuspendResume.StepsAreSuspendAll` | scheduler/background_scheduler.py:226-236 | Uninterrupted, the protocol steps are the loop of suspend_all |
| `SuspendResume.StepsAreResumeAll` | scheduler/background_scheduler.py:238-248 | And the loop of resume_all, the tasks whose resume fails being the abandoned ones |
| `SuspendResume.ResumeUndoesSuspend` | scheduler/background_scheduler.py:226-248 | A resume without failures undoes any suspension iff nothing was suspended before |
| `SuspendResume.BackgroundScheduler.SuspendAllTasks` | scheduler/background_scheduler.py:226-236 | Exactly the running tasks whose suspend succeeds become suspended |
| `SuspendResume.BackgroundScheduler.ResumeAllTasks` | scheduler/background_scheduler.py:238-248 | Exactly the suspended tasks whose resume succeeds run again |
| `SuspendResume.ForegroundScheduler.Enter` | scheduler/foreground_scheduler.py:48-52 | Only the first entry suspends |
| `SuspendResume.ForegroundScheduler.Leave` | scheduler/foreground_scheduler.py:55-60 | Only the last exit resumes |
| `CircuitBreaker.AdvertisedDelayCovers` | brokers/broker_api_wrapper.py:322-336 | retry_after_seconds strictly exceeds the remaining open time, by at most a second |
| `CircuitBreaker.WaitingOutFindsClosedUnlessReopened` | brokers/broker_api_wrapper.py:292-348 | After the advertised delay the breaker is open iff a failure in between re-extended it |
| `CircuitBreaker.OpenOnlyIfReopened` | brokers/broker_api_wrapper.py:292-317 | A closed breaker is open later iff some failure of the run opened it beyond that time |
| `CircuitBreaker.OpensOnlyAfterThreshold` | brokers/broker_api_wrapper.py:304-317 | A fresh breaker opens only after threshold technical failures |
| `CircuitBreaker.NeverOpensIff` | brokers/broker_api_wrapper.py:304-348 | A fresh breaker stays unopened through a run iff no streak of technical failures since a success reaches the threshold |
| `CircuitBreaker.ExpiryStartsAfresh` | brokers/broker_api_wrapper.py:292-348 | An order checked after an opening has expired starts the breaker afresh: from then on it stays unopened iff no streak of technical failures reaches the threshold, whatever it had counted before |
| `CircuitBreaker.BrokerApiWrapper.IsOpen` | brokers/broker_api_wrapper.py:292-302 | Tells openness and resets an expired opening |
| `CircuitBreaker.BrokerApiWrapper.Submit` | brokers/broker_api_wrapper.py:319-336 | An order is forwarded iff the breaker is not open |
| `CircuitBreaker.BrokerApiWrapper.Finish` | brokers/broker_api_wrapper.py:337-348 | Counts a technical failure, resets on success, ignores a business rejection |
| `ForceExitRetry.ScheduledRetryMeetsClosedBreaker` | scheduler/strategy_scheduler.py:203-254 | A retry scheduled from a blocked reply finds that opening over, having waited at most a second too long; it meets an open breaker iff a failure re-extended it |
| `ForceExitRetry.UntoldDelayMeetsClosedBreakerIff` | scheduler/strategy_scheduler.py:203-213 | A reply without a delay is retried after five minutes; nothing failing meanwhile, that meets an open breaker iff more than five minutes of the opening were left |
| `ForceExitRetry.ReservationKeepsOneUnfired` | scheduler/strategy_scheduler.py:218-264 | At most one unfired retry per key, and one for the reserved key |
| `ForceExitRetry.StopLeavesNoneWaitingIff` | scheduler/strategy_scheduler.py:393-422 | No interleaving of a stop leaves a retry waiting iff, at its snapshot, no retry is registered or none is executing |
| `ForceExitRetry.StopIsSafeIff` | scheduler/strategy_scheduler.py:393-422 | Under exactly that condition there is at most one unfired retry per key after the stop and any later reservations |
| `ForceExitRetry.ForgettingIsSafeIff` | scheduler/strategy_scheduler.py:417-422 | Forgetting the registry keeps one unfired retry per key through all later reservations iff nothing is waiting then |
| `ForceExitRetry.BlockedWhileStopping` | scheduler/strategy_scheduler.py:218-337 | With a registered and an executing retry some interleaving leaves a new one waiting |
| `ForceExitRetry.StopForgetsRetry` | scheduler/strategy_scheduler.py:218-344 | A run of calls in which a retry waits when the registry is forgotten, so that the next reservation makes a second one |
| `ForceExitRetry.RetryScheduler.Schedule` | scheduler/strategy_scheduler.py:218-264 | Refused iff it would miss the cutoff |
| `ForceExitRetry.RetryScheduler.Fire` | scheduler/strategy_scheduler.py:266-337 | Frees its key before ordering |
| `ForceExitRetry.RetryScheduler.Callback` | scheduler/strategy_scheduler.py:256-259 | A late callback removes only its own entry |
| `ForceExitRetry.RetryScheduler.End` | scheduler/strategy_scheduler.py:266-344 | Ending leaves the registry to the callback |
| `ForceExitRetry.RetryScheduler.ClearRegistry` | scheduler/strategy_scheduler.py:417-422 | What was tracked stays tracked iff nothing is waiting |
| `TradeJournal.DistinctObjectsPartition` | common/trade_journal_comparison.py:18-38 | With distinct live objects, for every key the matches are the zip of both sides in time order and the unmatched lists are the rest |
| `TradeJournal.PairingFollowsTime` | common/trade_journal_comparison.py:18-38 | With distinct live objects, for every key: the matched records of a side followed by its unmatched ones ascend in signal time and have, for each time, exactly the records of that time in input order; and one side has nothing unmatched |
| `TradeJournal.EarliestIsMatched` | common/trade_journal_comparison.py:18-38 | One backtest and two live records of a key, the later one given first: the earlier one is matched |
| `TradeJournal.ListsFollowKeys` | common/trade_journal_comparison.py:100-110 | Across keys, matches and both unmatched lists ascend by strategy, code and day |
| `TradeJournal.PartitionAlwaysIffDistinct` | common/trade_journal_comparison.py:18-38 | It is a partition for every backtest list iff the live records are distinct objects |
| `TradeJournal.RepeatedObjectIsLost` | common/trade_journal_comparison.py:35-38 | If the same live object is given twice some backtest list loses a live record |
| `TradeJournal.SortCommutes` | common/trade_journal_comparison.py:18-19 | Sorting everything and looking at one key is sorting that key by time, stably |
| `TradeJournal.SortIsSorted` | common/trade_journal_comparison.py:107-110 | The sort is a sorted reordering |
| `TradeJournal.PairingByKey` | common/trade_journal_comparison.py:28-36 | For every key the i-th record on one side goes with the i-th on the other |
| `TradeJournal.MatchedIffEarly` | common/trade_journal_comparison.py:35-38 | Identities do not leak between keys |
| `TradeJournal.CompareTradeJournals` | common/trade_journal_comparison.py:8-45 | The three loops compute the comparison |

## Left out

- Floating point: sums, returns and fractions are exact reals; rounding of return rates and percentage text is not modelled.
- Integer widths: Python integers are unbounded, so are these.
- Databases, files, connections, thread locks, migrations: a failed write is an unchanged table; a failed read is a flag.
- Broker, HTTP and WebSocket traffic, notifications, logging, metrics, profiling: no state that the proofs need.
- Text: parsing, formatting and trimming of dates, numbers, sources and codes; strings are compared only.
- Cache statistics per caller and per item, and the statistics reports: not modelled. An LFU cache of capacity 0, on which `put` raises, is excluded by the constructor.
- OrderFsm: the descriptive fields of an order context (broker number, error text, prices, latency), which no transition reads.
- BrokerOrderMapper: reading numbers and flags out of the broker's text fields; a missing order quantity is 0.
- OhlcvRepository: callers that change a returned candle list, which the cache shares with them; the separate candle of the current day, which is always absent in this path.
- StreamingStockRepo: the order in which pruned codes are unmarked, a database failure during loading, and the status report.
- SchedulerLoop: market hours, the order cutoff, the kill switch and reconciliation are inputs of a pass; strategies are taken to have different names, which `register` does not check.
- SchedulerLoop.BoundedWaiting: counts passes with an open gate and no holder due; the time until such a pass is the subject of SchedulerStarvation.
- SchedulerStarvation.GatedTurnWithin: the pacing of passes and the ends of runs are inputs; the gap between its intervals and those of CarouselStarvesTheRest is the spacing of passes, which only StarvedIff decides.
- ForcedExit.HoldingFollowsSchedule: is about orders that fill; orders that do not are the subject of FlatIffSoldOut. Tiers lie in (0, 1].
- ForcedExit: prices, and the checks that an order passes before it reaches the broker.
- SignalHistory: the order of recovered codes, the reload limit of the stored history, and its subscribers.
- ForceExitRetry: forced exits that other components place while the scheduler is stopping; the balance and open-order checks between waking and ordering appear only as ways for a task to end.
- SuspendResume: start-up and shutdown of the registry appear as tasks that change state by themselves; a task number is fixed during suspend_all and resume_all.
- CircuitBreaker: the breaker path of overseas orders and the call of the client itself.
- SnapshotBackfill: how the first and last calendar day are derived from the trades and from yesterday, and the fetching of closing prices; strategies are indexed in order of appearance instead of alphabetically, which no result depends on.
- StrategyIdentity: the display-name table is any injective map whose names are not ids; strategy status is not modelled.
- VirtualLedger: the text of the label under which a failure without a strategy is filed is an input; rows keep one opaque field for the recorded signal metadata; transaction-cost variants of the return rate.
- OverseasLedger: summaries and listings.
- LedgerRepair: backup, dry run and the choice of rows to repair.
- TradeJournal: numeric differences and averages of the matched pairs, which are computed pair by pair.
- Configuration, favourites, ranking, disclosure and report components: record handling without hard properties.
