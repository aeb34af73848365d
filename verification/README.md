# Marketblocks: a verified model

Marketblocks turns trades and candles into simulated trading. This project models the stateful components
that do so and proves what they promise:

- the candle builders (`OhlcvFromTrades.dfy`, `MovingCandle.dfy`): a builder's candle is the one recomputed
  from the whole trade history (`CandleHistory.dfy`, `CandleRuns.dfy`), and short candles roll up into long
  ones (`RollUp.dfy`);
- the back-test data engine (`BackTestingData.dfy`), its loaders (`DataLoading.dfy`, `DataFactory.dfy`) and the
  step loop that drives it (`BackTestRunner.dfy`): which rows each candle merges, that no answer but the last
  trade depends on rows after the clock, that no loaded row is skipped;
- the whole back test (`BackTest.dfy`), in which a strategy trades on the paper trader over the engine, with
  notifications, exceptions and the trade log, and its meaning over values (`BackTestSession.dfy`) with the proofs
  about it (`WatchedOrders.dfy`, `TradingFuture.dfy`, `AbortedTest.dfy`);
- the paper trader (`Orders.dfy`, `PaperTradeApi.dfy`) with the proofs about its runs (`Tries.dfy`,
  `LifeCycle.dfy`, `Outcomes.dfy`, `Money.dfy`, `OrderIndex.dfy`, `TrailingStops.dfy`, `StaleEntries.dfy`) and the trade log (`TestLogger.dfy`);
- the order book (`OrderBook.dfy`, its price comparison in `DoubleCompare.dfy`) and the Binance update filter (`BinanceStream.dfy`);
- the CSV printer and parser (`Csv.dfy`).

A component whose methods update fields is a class. Its methods are proved against functions on values, and
the theorems are lemmas about these functions over all inputs and all runs. `Trading.dfy` holds the values
shared by all components, `Candles.dfy` the merging of candles, `Intervals.dfy` the arithmetic of whole intervals,
`Search.dfy` the search of a sequence by time, `Sums.dfy` adding up.

Prices, volumes and rates are real numbers, times are unbounded integers, and amounts are unbounded naturals.
Prices, order volumes and order prices are not negative and the fee is between 0 and 100 percent, as the
conversion to an unsigned amount demands. What comes from outside is a parameter: the latest prices, the
clock, the rows of a data source, the market's order book, the strategy. A strategy is any function from the
answers so far to the next question or act.

## What the proofs show about the code

- The last candle counted back, clamped to the first row, also merges a row stamped exactly at its end, which
  no other candle does (`ClampedRange`). When that end is the clock, the row in force now is included
  (`ClampedCandleWitness`).
- Adjacent candles both merge the row in force between them, unless the older one is not clamped and a row
  starts exactly there (`SharedRow`). The volume of a shared row is counted twice (`SharedVolume`).
- `get_trade` depends on whether a later row exists (`TradePeeks` says exactly when, `TradePeeksWitness` on
  two rows). Candles and order books do not.
- A row stamped -1 is taken for "no row yet" by the thinning selector, so rows stamped -1 and 0 are both kept
  (`SentinelLeaks`). With no stamp below -1, kept rows are a step apart exactly unless the first row is stamped
  -1 and the second comes less than a step later (`ThinGapsExactly`).
- A trade that finds the moving candle's start at 0 is taken for the first one, and the trades before it are
  lost from the window (`StartAtZeroWitness`), exactly unless it is at time 0 or the span is 0 and it is later
  (`StartAtZeroExactly`). With positive times it never happens after the first trade (`PushTrade`).
- An exception while notifying is outside the loop's `try` and ends the back test; trades executed since the last
  flush are then never logged (`AbortedTestLosesTrades`). One raised by the strategy delays the log until an
  iteration ends without one (`LogLags`).
- A whole test with trading depends on the future only in whether later rows exist (`TradingIgnoresFuture`).
- An order that fires without funds stays open, but a trailing order has lost its extreme by then
  (`FailureLeavesOrderOpen`).
- The tolerance comparison is a strict partial order on all numbers, but equality under it is not transitive
  (`EqualIsNotTransitive`). It tells apart the prices of a grid reaching n ticks from zero exactly when the
  tick is above four epsilon and n times epsilon is below 1 (`GridIsExactlySeparated`), and there it is the
  exact order (`GridIsExact`).
- The message that starts a symbol's book is not applied to it, so repeating that one message has no effect
  exactly when it is not newer than the fetched snapshot (`FirstMessageRepeated`). Repeats are harmless
  throughout a stream exactly when this holds for every starting message (`RepeatsHarmlessExactly`).

## Model

| member | source | states |
|---|---|---|
| Candles.HighLowMeaning | src/testing/back_testing/back_testing_data.cpp:14-28 | the merged high and low bound every merged candle and each is met by one of them |
| Candles.MergeInStages | src/testing/back_testing/back_testing_data.cpp:11-31 | merging two adjacent runs and joining the results is merging the whole, so candles may be rolled up in stages |
| OhlcvFromTrades.OhlcvFromTrades.constructor | src/trading/ohlcv_from_trades.cpp:5-15 | the builder starts as the given candle, with its time as the last trade time |
| OhlcvFromTrades.OhlcvFromTrades.StartNewCandle | src/trading/ohlcv_from_trades.cpp:17-24 | rolling moves to the aligned candle that contains the time, flat at the last close |
| OhlcvFromTrades.OhlcvFromTrades.AddTrade | src/trading/ohlcv_from_trades.cpp:26-52 | the new state as a function of the old one and the trade; earlier trades are ignored |
| OhlcvFromTrades.OhlcvFromTrades.GetOhlcv | src/trading/ohlcv_from_trades.cpp:54-67 | reading rolls to the current candle and returns it |
| CandleHistory.RangeMeaning | src/trading/ohlcv_from_trades.cpp:43-44 | the recomputed high and low bound the carried price and every trade, and are met by one of them |
| CandleHistory.OpeningMeaning | src/trading/ohlcv_from_trades.cpp:38-41 | a candle opens at the last trade exactly at its start, or as carried over |
| CandleHistory.CloseMeaning | src/trading/ohlcv_from_trades.cpp:47-51 | an ordered history closes at the first trade of its latest time, if later than the first candle, or at that candle's close |
| CandleHistory.TotalIsSum | src/trading/ohlcv_from_trades.cpp:45 | the volume is the one carried over and that of every trade |
| CandleHistory.RecomputeSnoc | src/trading/ohlcv_from_trades.cpp:38-51 | one more trade changes the candle recomputed from the whole history exactly as the builder changes its own |
| CandleHistory.CandleStartBounds | src/trading/ohlcv_from_trades.cpp:19 | the candle start is a whole number of intervals from the first, at or before the time and less than an interval away |
| CandleRuns.RunIsRecomputed | src/trading/ohlcv_from_trades.cpp:17-67 | after any run of ordered trades and reads the builder holds the candle recomputed from the trade history alone |
| CandleRuns.PollingIsInvisible | src/trading/ohlcv_from_trades.cpp:54-67 | runs over the same trades show the same candle at any time both can be read at, however often candles were read |
| CandleRuns.DroppedReadsInvisible | src/trading/ohlcv_from_trades.cpp:54-67 | in a run of any order, leaving out any reads, each at or before the time of the event after it, leaves builder and candle the same after every event that stays |
| CandleRuns.DroppedReadInvisible | src/trading/ohlcv_from_trades.cpp:54-67 | leaving out one such read gives the same builder at the end |
| CandleRuns.WithoutIsProper | src/trading/ohlcv_from_trades.cpp:54-67 | leaving out any reads keeps a run proper, with the same trades: no other read becomes one before its candle |
| CandleRuns.DropPoll | src/trading/ohlcv_from_trades.cpp:54-67 | leaving out any one read keeps a run proper, with the same trades |
| CandleRuns.RunWellFormed | src/trading/ohlcv_from_trades.cpp:17-67 | low and high bound open and close in every reachable state, even out of order, and the start stays congruent to the first modulo the interval |
| RollUp.PolledRunShows | src/trading/ohlcv_from_trades.cpp:54-67 | one builder, given the trades in order and read at the end of every interval, shows the candle of each interval as the pushes alone would |
| RollUp.RollUpConsistent | src/trading/ohlcv_from_trades.cpp:17-67 | the candle of k intervals built directly equals, at every moment, the merge of the candles one builder shows when read at the end of each interval inside it, quiet ones included |
| MovingCandle.MovingCandle.UpdateValues | src/trading/moving_candle.cpp:38-56 | the start never moves back, and the deque is trimmed to it |
| MovingCandle.TrimMeaning | src/trading/moving_candle.cpp:45-55 | whatever the order, trimming drops exactly the leading entries followed by one in time, and reprices only the head |
| MovingCandle.TrimIsWindow | src/trading/moving_candle.cpp:45-55 | trimming what is left of an ordered history, at any later start, leaves the window of the whole history |
| MovingCandle.MovingCandle.PushTrade | src/trading/moving_candle.cpp:58-67 | the new start and deque for any trade; after trades in order the deque is the window of those pushed since the last reset or push at start 0, its start the later of the first of them and the latest time less the span |
| MovingCandle.MovingCandle.StartAtZeroExactly | src/trading/moving_candle.cpp:60-63 | a trade in order that finds the start at 0 leaves the window of all trades exactly if it is at time 0, or later with a span of 0 |
| MovingCandle.StartAtZeroWitness | src/trading/moving_candle.cpp:58-67 | trades pushed at times 0 and 5 leave only the second in a candle of a minute, though both are in its window |
| MovingCandle.MovingCandle.GetOffsetTrades | src/trading/moving_candle.cpp:14-36 | the entries before the first one after the offset limit; with no offset the whole deque |
| MovingCandle.MovingCandle.OffsetTradesShown | src/trading/moving_candle.cpp:14-36 | after trades in order those are the entries of the window at or before the limit |
| MovingCandle.MovingCandle.OrderedAnswers | src/trading/moving_candle.cpp:69-83 | after trades in order a query at any time finds an entry to start from |
| MovingCandle.CandleMeaning | src/trading/moving_candle.cpp:69-94 | from the whole ordered history: open at the last trade at or before the start, close at the last one at or before the limit, high and low bound these and all between and are met, volume of those after the start and of the opening one if exactly on it |
| MovingCandle.QuoteVolumeMeaning | src/trading/moving_candle.cpp:96-109 | the quote volume, from the whole ordered history: the price times the volume of each of those trades, added up |
| MovingCandle.MovingCandle.GetOhlcv | src/trading/moving_candle.cpp:69-94 | after trades in order the candle is that of the history at the moved start, with no offset up to the last trade; after others the aggregate of the entries in use |
| MovingCandle.MovingCandle.GetQuoteVolume | src/trading/moving_candle.cpp:96-109 | after trades in order the quote volume is that of the history at the moved start; after others that of the entries in use |
| MovingCandle.MovingCandle.Reset | src/trading/moving_candle.cpp:111-115 | nothing pushed before a reset is remembered |
| MovingCandle.WindowMeaning | src/trading/moving_candle.cpp:45-55 | the window holds every trade after its start, preceded by one entry priced by the last trade at or before the start, with its volume only if exactly on it |
| MovingCandle.TrimmedTail | src/trading/moving_candle.cpp:45-55 | any fully trimmed remainder of the history is the window |
| MovingCandle.NothingHidden | src/trading/moving_candle.cpp:16-19 | with no offset a query uses the whole window |
| BackTestingData.MergeOhlcv | src/testing/back_testing/back_testing_data.cpp:11-31 | the loop merges the rows of its range, the first one in any case |
| BackTestingData.Scan | src/testing/back_testing/back_testing_data.cpp:45-64 | the cached scan finds the row a fresh search finds and reads no row outside the data |
| BackTestingData.BackTestingData.GetIterator | src/testing/back_testing/back_testing_data.cpp:33-68 | whatever is cached, the result is the last row at or before the clock, or none |
| BackTestingData.BackTestingData.GetOrLoadData | src/testing/back_testing/back_testing_data.cpp:93-108 | a pair's rows are those of the data or the source, loaded at most once, and no pair's rows change |
| BackTestingData.BackTestingData.Increment | src/testing/back_testing/back_testing_data.cpp:110-113 | the clock moves one step forward and every cached position stays at or before it |
| BackTestingData.CutCandles | src/testing/back_testing/back_testing_data.cpp:133-164 | the backward walk yields the specified candles, its row ranges never empty and inside the data |
| BackTestingData.CandleMeaning | src/testing/back_testing/back_testing_data.cpp:133-164 | the i-th candle opens with the row in force at its stamp, closes with the last row before its end (at its end for the clamped one), its high and low bound every row from the one to the other and are met, its volume is theirs |
| BackTestingData.BackTestingData.GetOhlcv | src/testing/back_testing/back_testing_data.cpp:115-165 | the candles are those of a fresh search over the pair's rows |
| BackTestingData.BackTestingData.GetTrade | src/testing/back_testing/back_testing_data.cpp:167-190 | the last trade is that of a fresh search over the pair's rows |
| BackTestingData.TradeMeaning | src/testing/back_testing/back_testing_data.cpp:167-190 | the last trade has the time and volume of the row in force and its close if no row follows and it began before now, else its open; with no row yet it is all 0 |
| BackTestingData.BackTestingData.GetOrderBook | src/testing/back_testing/back_testing_data.cpp:192-213 | the book is that of a fresh search over the pair's rows |
| BackTestingData.BookMeaning | src/testing/back_testing/back_testing_data.cpp:192-213 | one ask at the high and one bid at the low of the row in force, at its time and volume; empty with no row yet |
| BackTestingData.UnclampedRange | src/testing/back_testing/back_testing_data.cpp:140-151 | a candle not clamped to the first row merges exactly the rows whose span meets its interval |
| BackTestingData.ClampedRange | src/testing/back_testing/back_testing_data.cpp:140-151 | the clamped candle merges exactly the rows up to and including its end |
| BackTestingData.SharedRow | src/testing/back_testing/back_testing_data.cpp:140-156 | adjacent candles share the row in force between them, unless the older one is not clamped and a row starts exactly there |
| BackTestingData.SharedVolume | src/testing/back_testing/back_testing_data.cpp:140-156 | the volumes of adjacent candles add up to that of the rows they span plus the shared row once more |
| BackTestingData.ClampedCandleWitness | src/testing/back_testing/back_testing_data.cpp:140-151 | two rows on which the clamped candle contains the row starting at its end and the unclamped one does not |
| BackTestingData.CandleStamps | src/testing/back_testing/back_testing_data.cpp:138-162 | the i-th candle is stamped i + 1 intervals back but not before the first row, and the candles stop there |
| BackTestingData.CandleNumber | src/testing/back_testing/back_testing_data.cpp:138-162 | as many candles as asked for, or just as many as reach back to the first row; none before it |
| BackTestRunner.Run | src/runner/back_test_runner.h:54-89 | a run of any strategy makes the counted iterations at evenly spaced clocks, and every answer is the fresh one |
| BackTestRunner.IterationMeaning | src/runner/back_test_runner.h:73-76 | an iteration asks as long as the strategy asks, and each answer is the fresh one |
| BackTestRunner.NoPeeking | src/testing/back_testing/back_testing_data.cpp:115-213 | candles and order books depend only on rows up to the clock |
| BackTestRunner.TradePeeks | src/testing/back_testing/back_testing_data.cpp:178-187 | the last trade depends on later rows exactly when only one side has a later row, the row began earlier, and its open and close differ |
| BackTestRunner.TradePeeksWitness | src/testing/back_testing/back_testing_data.cpp:178-187 | one later row turns the price of the last trade from the close to the open of the row in force |
| BackTestRunner.RunIgnoresFuture | src/runner/back_test_runner.h:60-83 | no strategy reading candles and books can tell apart, in n iterations, data that agree up to the last clock |
| BackTest.RunBackTest | src/runner/back_test_runner.h:54-89 | the loop on the objects, for any trading strategy: account, log and replies are those of the test over values, every time step is made unless an exception in notifying ends the test, and each iteration notifies the subscribed pairs, each once |
| BackTest.BacktestWebsocketStream.Notify | src/testing/back_testing/backtest_websocket_stream.cpp:12-30 | the subscribed pairs are sent to the trader one after the other, each at the price of the clock, in some order, up to one that throws |
| BackTest.BacktestWebsocketStream.GetLastTrade | src/testing/back_testing/backtest_websocket_stream.cpp:105-108 | the price of the last trade at the clock |
| BackTest.PlaceOrder | src/testing/paper_trading/paper_trade_api.cpp:276-292 | the pair is subscribed to and the order tried at the price of the clock, also when that throws |
| BackTest.RunIteration | src/runner/back_test_runner.h:75-78 | any acts of a strategy on the objects, its exception included, are those of the session over values |
| BackTestSession.ReplyMeaning | src/testing/paper_trading/paper_trade_api.cpp:240-320 | what a strategy is told of its orders, cancellations, balances and log rows is so |
| BackTestSession.PlayedEnds | src/runner/back_test_runner.h:73-81 | an iteration lasts as long as the strategy acts and ends with an exception exactly if the strategy raises one |
| BackTestSession.NotifiedStopsAt | src/testing/back_testing/backtest_websocket_stream.cpp:12-30 | an exception ends notifying where it occurs |
| BackTestSession.TestIsRun | src/runner/back_test_runner.h:60-83 | the account after any test is what calls made at the clocks of its iterations, in the market of those clocks, lead to |
| BackTestSession.ExecutionsFromData | src/testing/paper_trading/paper_trade_api.cpp:106-216 | every execution of a test was made at the clock of an iteration in the market the data show then |
| BackTestSession.LogLags | src/runner/back_test_runner.h:75-83 | the log is a first part of the executions, and all of them when the last iteration ended without an exception |
| BackTestSession.LogByIteration | src/runner/back_test_runner.h:71-81 | an iteration logs everything or, after an exception in notifying or in the strategy, nothing |
| BackTestSession.TestIsSound | src/testing/paper_trading/paper_trade_api.cpp:178-320 | after any test ids are partitioned, open orders listed, balances replayed, extremes followed and executions priced as ordered |
| WatchedOrders.TestIsWatched | src/testing/paper_trading/paper_trade_api.cpp:281-287 | after any test the pair of every open order is subscribed to, unless the strategy has unsubscribed from it since |
| WatchedOrders.NotifiedTries | src/testing/back_testing/backtest_websocket_stream.cpp:12-30 | notifying that does not throw tries the open orders of the notified pairs, each exactly once |
| WatchedOrders.EveryOrderTried | src/runner/back_test_runner.h:73-78 | while the strategy has unsubscribed from nothing, every iteration tries every open order exactly once before the strategy acts, or an exception ends the test |
| TradingFuture.TradingIgnoresFuture | src/runner/back_test_runner.h:60-83 | a whole test, orders, balances and log included, is the same on data that agree up to the last clock and on whether later rows exist |
| AbortedTest.AbortedTestLosesTrades | src/runner/back_test_runner.h:73-83 | two resting orders of which only the first is funded end a test while notifying, the first executed and never logged |
| DataLoading.OhlcvDataSelector.Select | src/testing/back_testing/data_loading/csv_data_source.cpp:20-29 | a row is kept if none was kept before or it is at least a step later, and then becomes the last |
| DataLoading.LoadRows | src/testing/back_testing/data_loading/csv_data_source.cpp:65-82 | loading yields the thinned rows sorted by time, and sorting changes nothing when no row is stamped -1 |
| DataLoading.ThinGaps | src/testing/back_testing/data_loading/csv_data_source.cpp:20-29 | kept rows are at least a step apart, in any input order, as long as no row is stamped -1 |
| DataLoading.ThinGapsExactly | src/testing/back_testing/data_loading/csv_data_source.cpp:16-29 | kept rows are a step apart exactly if no row slips through behind one stamped -1; with no stamp below -1, exactly unless the first row is stamped -1 and the second comes less than a step later |
| DataLoading.SentinelLeaks | src/testing/back_testing/data_loading/csv_data_source.cpp:16-22 | a row stamped -1 and one stamped 0 are both kept at a step of 60 |
| DataLoading.ThinIsSubsequence | src/testing/back_testing/data_loading/csv_data_source.cpp:20-29 | the kept rows are a selection of the rows |
| DataLoading.ThinIsOptimal | src/testing/back_testing/data_loading/csv_data_source.cpp:20-29 | for rows in order no other selection a step apart keeps more |
| DataLoading.SortForced | src/testing/back_testing/data_loading/csv_data_source.cpp:80 | rows strictly in order are their only sorted rearrangement |
| DataFactory.LoadData | src/testing/back_testing/data_loading/data_factory.cpp:21-56 | the data are the nonempty rows of the pairs and the limits those of the rows unless configured |
| DataFactory.LimitsEnclose | src/testing/back_testing/data_loading/data_factory.cpp:29-45 | the limits enclose every row of every pair whose rows are in order |
| DataFactory.LimitsAreMet | src/testing/back_testing/data_loading/data_factory.cpp:29-45 | each limit is the first or last row of some pair, or its starting value |
| DataFactory.LoadBackTestingData | src/testing/back_testing/data_loading/data_factory.cpp:66-96 | lazily or eagerly, a listed pair is answered from the rows of the source; an eager engine keeps no source |
| DataFactory.LoadingModesAgree | src/testing/back_testing/data_loading/data_factory.cpp:78-86 | by induction over iterations, a strategy that asks for listed pairs gets the same answers from the rows either mode gives it |
| DataFactory.RunBothWays | src/testing/back_testing/data_loading/data_factory.cpp:66-96 | the lazy and the eager engine, built from one source with any configuration accepted for lazy loading, give any such strategy equal answers; lazily no pair is loaded twice, eagerly none during the run |
| DataFactory.NoRowSkipped | src/testing/back_testing/data_loading/data_factory.cpp:16-19 | every row is in force in some iteration, the last one exactly if the last clock reaches it |
| DataFactory.NoLoadedRowSkipped | src/testing/back_testing/data_loading/data_factory.cpp:21-45 | with no limits configured no loaded row of any pair is skipped and every clock lies within the limits |
| DataFactory.RunOverFiles | src/testing/back_testing/data_loading/data_factory.cpp:66-96 | at the clocks a test over all rows of the files really runs at, no loaded row is skipped |
| DataFactory.ClockWithin | src/testing/back_testing/data_loading/data_factory.cpp:16-19 | the clock lies within the limits exactly while iterations are left |
| Tries.TryKeeps | src/testing/paper_trading/paper_trade_api.cpp:106-176 | a try that does not fill changes neither balances nor open or closed orders |
| Tries.TryFills | src/testing/paper_trading/paper_trade_api.cpp:178-216 | a try that fills closes that order alone, records its execution and settles it from funds that were there |
| Outcomes.TryOutcome | src/testing/paper_trading/paper_trade_api.cpp:106-204 | in every reachable state a try keeps, fills or throws, told by the inequalities of each order type, the extreme of the prices tried, and the amount the balance must cover |
| Outcomes.PlacedAsAsked | src/testing/paper_trading/paper_trade_api.cpp:276-292 | a new order is open exactly as asked for, or executed as asked for at the time and market of the call |
| Outcomes.OnlyCancelCancels | src/testing/paper_trading/paper_trade_api.cpp:178-320 | in every reachable state only its own cancellation takes an open order away without executing it, and cancelling moves no money |
| PaperTradeApi.PaperTradeApi.constructor | src/testing/paper_trading/paper_trade_api.cpp:78-93 | a new account holds the truncated initial balances and no orders |
| PaperTradeApi.PaperTradeApi.HasSufficientFunds | src/testing/paper_trading/paper_trade_api.cpp:95-104 | true exactly if the asset has a balance that covers the amount |
| PaperTradeApi.PaperTradeApi.TryFillOrder | src/testing/paper_trading/paper_trade_api.cpp:106-176 | the new state and the outcome of a try, and that closed orders are only appended |
| PaperTradeApi.PaperTradeApi.ExecuteOrder | src/testing/paper_trading/paper_trade_api.cpp:178-216 | an execution succeeds exactly if the funds cover it, appends the description of the order, touches no asset outside its pair, and otherwise changes nothing |
| PaperTradeApi.PaperTradeApi.TradeUpdateHandler | src/testing/paper_trading/paper_trade_api.cpp:218-239 | the loop that deletes in place does what the scan of the list does, also when it throws midway |
| PaperTradeApi.PaperTradeApi.AddOrder | src/testing/paper_trading/paper_trade_api.cpp:276-292 | an order is placed under the next number, listed and tried; the number stays used if that throws |
| PaperTradeApi.PaperTradeApi.CancelOrder | src/testing/paper_trading/paper_trade_api.cpp:308-320 | cancelling removes an open order only, and fails for any other id |
| PaperTradeApi.Drive | src/testing/paper_trading/paper_trade_api.cpp:218-320 | the trader after any calls is in a reachable state of the account |
| LifeCycle.PartitionByRun | src/testing/paper_trading/paper_trade_api.cpp:178-320 | in every reachable state each issued id is in exactly one of open, closed and cancelled |
| LifeCycle.RunExtends | src/testing/paper_trading/paper_trade_api.cpp:178-320 | ids are never reissued, nothing closed or cancelled opens again, closed orders are append-only |
| Money.BalancesReplay | src/testing/paper_trading/paper_trade_api.cpp:178-216 | in every reachable state the balances are the initial ones with the executions replayed, each covered when made |
| Money.SettleMeaning | src/testing/paper_trading/paper_trade_api.cpp:211-212 | an execution raises the gained asset by the gain, lowers the sold one by the cost, and leaves every other asset as it was |
| Money.FilledMoves | src/testing/paper_trading/paper_trade_api.cpp:178-212 | after a try that fills, a buyer has the volume for its price with the fee, a seller the price less the fee for the volume, each in units cut off, and no other asset has changed |
| Money.UntradedIsKept | src/testing/paper_trading/paper_trade_api.cpp:178-216 | in every reachable state an asset of no executed order is held as it was at first |
| Money.ExecutionsPricedRight | src/testing/paper_trading/paper_trade_api.cpp:106-176 | in every reachable state each execution of a limit order was at its limit with the market no worse, of a stop order at its stop price with the market at or past it, of any other at the market |
| Money.FailureLeavesOrderOpen | src/testing/paper_trading/paper_trade_api.cpp:147-172 | a try throws exactly when the order fires without funds; then orders and balances are unchanged and a trailing order loses its extreme |
| Money.DealMeaning | src/testing/paper_trading/paper_trade_api.cpp:180-204 | a deal moves volume one way and its price with or without the fee the other, each amount short of the exact one by less than a unit |
| Money.TruncationLeakIsBounded | src/testing/paper_trading/paper_trade_api.cpp:62-65 | n executions at one price raise the worth of the pair by less than n times the larger of 1 and the price |
| Money.BuyThenSell | src/testing/paper_trading/paper_trade_api.cpp:178-212 | buying and selling a volume at one price restores the asset exactly and never raises the price unit |
| OrderIndex.IndexedByRun | src/testing/paper_trading/paper_trade_api.cpp:218-282 | in every reachable state each open order is in its own pair's list once, in order of placement |
| OrderIndex.ScanTriesEach | src/testing/paper_trading/paper_trade_api.cpp:222-238 | a pass over a list that does not throw tries each listed open order once in order and leaves exactly the ids still open |
| OrderIndex.ScanStopsAt | src/testing/paper_trading/paper_trade_api.cpp:222-238 | a pass that throws has tried the open orders up to the failed one and leaves it and all after it listed |
| OrderIndex.UpdateTries | src/testing/paper_trading/paper_trade_api.cpp:218-239 | in every reachable state a trade update tries exactly the open orders of its pair, each once and in order of placement, and leaves those still open listed; or it tries them up to one that throws |
| TrailingStops.ExtremeMeaning | src/testing/paper_trading/paper_trade_api.cpp:38-47 | the extreme is the lowest price tried for a buy, the highest for a sale |
| TrailingStops.FollowedByRun | src/testing/paper_trading/paper_trade_api.cpp:147-162 | in every reachable state a trailing order holds the extreme of the prices tried since placement or last failure, none of which was one to fire at |
| TrailingStops.TrailingFires | src/testing/paper_trading/paper_trade_api.cpp:34-48 | a trailing order is kept exactly while the rise from the lowest price tried, for a buy, or the fall from the highest, for a sale, is less than delta times that price |
| TrailingStops.TrailingFiresInRun | src/testing/paper_trading/paper_trade_api.cpp:34-48 | the same for every open trailing order of every reachable state |
| TrailingStops.TrailingWitness | src/testing/paper_trading/paper_trade_api.cpp:34-48 | a sale trailing by a tenth waits at 100 and 120 and fires at 100 |
| StaleEntries.LazyIsEager | src/testing/paper_trading/paper_trade_api.cpp:230-233 | over any run, cleaning lists and extremes late is as good as cleaning them after every call |
| StaleEntries.AlikeIsInvisible | src/testing/paper_trading/paper_trade_api.cpp:149-154 | accounts that differ only in entries of orders not open have the same balances, orders and outcomes |
| TestLogger.TestLogger.FlushTrades | src/testing/reporting/test_logger.cpp:134-154 | after a flush the rows of every exchange are exactly its closed orders, each once and in order |
| TestLogger.TradingKeepsLog | src/testing/reporting/test_logger.cpp:134-154 | trading between flushes leaves the log valid |
| TestLogger.LogIsComplete | src/testing/reporting/test_logger.cpp:134-154 | however trading and flushing of one exchange interleave, the rows are the closed orders as of the last flush |
| TestLogger.DescriptionsAt | src/testing/paper_trading/paper_trade_api.cpp:50-60 | a row holds the time, id, type, pair, action, price and volume of its execution |
| TestLogger.DriveLogged | src/testing/reporting/test_logger.cpp:134-154 | any sequence of calls to several exchanges and flushes of all, on the objects: each exchange is where its own calls lead and its rows are its closed orders as of the last flush |
| DoubleCompare.LessThanIsStrictOrder | src/common/utils/mathutils.cpp:33-41 | the tolerance comparison is a strict partial order, and equality is what it leaves unordered |
| DoubleCompare.EqualIsNotTransitive | src/common/utils/mathutils.cpp:8-31 | equality within the tolerance is not transitive |
| DoubleCompare.GridIsExactlySeparated | src/common/utils/mathutils.cpp:8-31 | the prices up to n ticks either way of zero are told apart exactly if n is 0, or the tick is above four epsilon and n times epsilon is below 1 |
| DoubleCompare.GridIsExact | src/common/utils/mathutils.cpp:8-41 | on such a grid all three comparisons are the exact ones |
| OrderBook.OrderBookCache.UpdateCache | src/exchanges/websockets/order_book_cache.cpp:45-52 | an update stamps the book and changes the side of its entry |
| OrderBook.OrderBookCache.UpdateSide | src/exchanges/websockets/order_book_cache.cpp:9-23 | an equivalent entry is erased and the new one inserted if it has volume |
| OrderBook.OrderBookCache.Snapshot | src/exchanges/websockets/order_book_cache.cpp:54-73 | the first levels of each side, as many as asked or all |
| OrderBook.FromSnapshot | src/exchanges/websockets/order_book_cache.cpp:75-83 | a new cache holds the sets of the snapshot's entries |
| OrderBook.UpdateRefinesMap | src/exchanges/websockets/order_book_cache.cpp:9-23 | one update changes the volume at its own price and at no other |
| OrderBook.BookRefinesMap | src/exchanges/websockets/order_book_cache.cpp:45-52 | after any updates each side holds at each price what the last update there says, or what it held before, and stays sorted |
| OrderBook.SnapshotIsBest | src/exchanges/websockets/order_book_cache.cpp:54-73 | a snapshot is the sorted best levels: every level left out comes after every one it holds |
| OrderBook.SnapshotRoundTrip | src/exchanges/websockets/order_book_cache.cpp:54-83 | a full snapshot rebuilds the same book |
| OrderBook.SetOfRefinesMap | src/exchanges/websockets/order_book_cache.cpp:75-83 | a book built from any snapshot is sorted and holds the first volume listed at each price |
| BinanceStream.ExchangeWebsocketStream.InitialiseOrderBook | src/exchanges/websockets/exchange_websocket_stream.cpp:159-165 | the pair's book becomes the given one, other books are unchanged |
| BinanceStream.ExchangeWebsocketStream.UpdateOrderBook | src/exchanges/websockets/exchange_websocket_stream.cpp:172-184 | the pair's book, started empty if missing, takes the update; other books are unchanged |
| BinanceStream.ExchangeWebsocketStream.GetOrderBook | src/exchanges/websockets/exchange_websocket_stream.cpp:223-234 | a snapshot of the pair's book, or an empty one |
| BinanceStream.BinanceWebsocketStream.ProcessOrderBookMessage | src/exchanges/binance/binance_websocket.cpp:95-119 | ids and books after a message, on the objects themselves |
| BinanceStream.BinanceWebsocketStream.ProcessOrderBookElement | src/exchanges/binance/binance_websocket.cpp:121-132 | the entries are applied one after the other |
| BinanceStream.DeliverRefinesMap | src/exchanges/binance/binance_websocket.cpp:107-132 | a newer message sets, at every price of both sides, the volume to that of its last pair with that price, keeps all others, and stamps the sorted book with its id |
| BinanceStream.StartRefinesMap | src/exchanges/binance/binance_websocket.cpp:99-105 | the message that starts a book brings the first volume the snapshot lists at each price, sorted, under the time of the snapshot |
| BinanceStream.DeliveriesRefineQuotes | src/exchanges/binance/binance_websocket.cpp:95-132 | after any stream the volume at every price of every symbol is that of the last message not too old with a pair at that price, or of the snapshot or book before |
| BinanceStream.DeliverIsLocal | src/exchanges/binance/binance_websocket.cpp:95-119 | a message touches only its own symbol and never lowers a stored id |
| BinanceStream.IdsCover | src/exchanges/binance/binance_websocket.cpp:107-118 | the stored id is at least that of every message delivered |
| BinanceStream.IdsAfter | src/exchanges/binance/binance_websocket.cpp:99-118 | the symbols with a stored id are those that had one and those of the messages |
| BinanceStream.RepeatsChangeNothing | src/exchanges/binance/binance_websocket.cpp:95-119 | from any feed, the empty one included, repeating delivered messages changes nothing when the first message of each symbol without a stored id is no newer than its snapshot |
| BinanceStream.RepeatsHarmlessExactly | src/exchanges/binance/binance_websocket.cpp:95-119 | repeats are harmless at every point of a stream exactly if the first message of each symbol without a stored id is no newer than its snapshot |
| BinanceStream.FirstMessageRepeated | src/exchanges/binance/binance_websocket.cpp:99-105 | repeating the message that starts a book has no effect exactly if it is not newer than the snapshot |
| Csv.StringStream.GetLine | src/common/csv/csv_row.cpp:54 | reading up to a delimiter, with the end and failure flags of a stream |
| Csv.ParseRow | src/common/csv/csv_row.cpp:48-65 | the loop over the stream yields the pieces between the commas of the text before the first NUL |
| Csv.RowToString | src/common/csv/csv_row.cpp:30-46 | the cells joined by commas |
| Csv.ParseCsv | src/common/csv/csv.cpp:32-44 | the rows of the lines, an empty piece after the last newline not being one |
| Csv.PrintRows | src/common/csv/csv.h:84-87 | each row printed on a line |
| Csv.RowRoundTrip | src/common/csv/csv_row.cpp:30-65 | printing and parsing a row gives it back exactly if it has a cell and no cell holds a comma or NUL |
| Csv.LineRoundTrip | src/common/csv/csv_row.cpp:30-65 | parsing and printing a line gives it back exactly if it holds no NUL |
| Csv.DocumentRoundTrip | src/common/csv/csv.cpp:32-44 | printing and parsing rows gives them back exactly if each can be printed |
| Csv.DocumentWitness | src/common/csv/csv.cpp:32-44 | two rows and their text, printed and parsed |
| Csv.TextRoundTrip | src/common/csv/csv.cpp:32-44 | parsing and printing a text gives it back exactly if it holds no NUL and ends its last line |

## Left out

- Floating point: rounding, NaN and infinities are not modelled; `double` is a real number throughout.
- PaperTradeApi.PaperTradeApi.ExecuteOrder: amounts are unbounded, so the wrap-around of a 64-bit unsigned balance is not modelled, nor is the undefined conversion of a negative amount.
- PaperTradeApi.PaperTradeApi.AddOrder: the subscription to the pair's trades is in `BackTest.PlaceOrder`; order ids are numbers here and the text of these numbers in the original.
- DataFactory.NoRowSkipped: the number of steps must fit the 32-bit counter, since it wraps around beyond that.
- DataLoading.LoadRows: reading numbers out of the cells is not modelled, and sorting is by insertion; `SortForced` shows that no other sort could give anything else.
- Csv.ParseRow: a view of part of a longer text is read past its end in the original; here the text is the whole of it up to a NUL.
- BackTestingData.BackTestingData.GetOhlcv: the interval is positive and the count not negative; a negative count makes the original fail to reserve memory.
- MovingCandle.MovingCandle.GetOhlcv: the offset is at most the interval, a trade has been pushed and an entry is in use; otherwise the original reads the front of an empty container.
- OrderBook.OrderBookCache.UpdateSide: a side is the sequence of a sorted set's entries, not the tree the set is kept in; the theorems about sides hold for prices on a grid.
- BackTestRunner.Run: this run asks questions only; notifications, trading, exceptions and flushing are in `BackTest.RunBackTest`. Progress logging and the report are not modelled.
- BackTest.RunBackTest: a strategy makes a bounded number of acts per iteration and raises only the exceptions the loop catches; handlers of its own and subscriptions to candles and order books, which the paper trader does not handle, are not modelled.
- TestLogger.TestLogger.FlushTrades: rows are kept as values, not printed to a file.
- Locks and threads: each public call of the paper trader is one atomic step.
- Order confirmations and order status: fixed answers.
- Reconnects: clearing the books on disconnect while the Binance ids stay.
- Update handlers fired by the websocket stream, subscriptions, trades and candles kept by it.
- HTTP, websockets, JSON, hashing, configuration, reports, live runners and the other exchanges' APIs.
