# Verified model of the option arbitrage backend

This project models the decision logic of a cross-venue option arbitrage backend and proves what it
promises: how a trade is sized and what it is guaranteed to earn, how a portfolio backtest accounts for
capital, how the executor's tables stay consistent through failures, how opportunities live and are
sampled, how venues and boxes are picked, and how events cross processes.

Run `dafny verify dfyconfig.toml` in this directory.

## How it is organised

| files | part of the system |
|---|---|
| `OrderBook`, `OptionEconomics`, `Orders`, `TradeSizing`, `ProfitLadder`, `PremiumCap`, `Settlement` | walking books, economics of a pair, sizing by bisection, what its rejections hide, what its cap covers, simulated fills, recorded profit |
| `StableSorting`, `BacktestAdmission`, `BacktestCurve`, `BacktestReport` | greedy admission, capital curve, report and breakdown of the backtest |
| `RiskLimits`, `TradeLedger`, `TradeExecutor` | risk gates, the rows of opportunities, trades and orders, the executor class |
| `Snapshots`, `Lifecycle`, `OpportunityScreener`, `StructuredScreener` | decimation of a time series, the life of a row, the two screener classes |
| `Quotes`, `BookCache`, `BoxSpreads`, `BoxGroups`, `PayoffChart` | linear and exhaustive venue choice, the ticker cache class, box detection, the quotes it looks at, its chart |
| `EventRelay`, `EventBus`, `CircuitBreaker` | the multi-process relay as a state machine, the in-process bus class, the breaker class and its retry loop |
| `RealArithmetic`, `Wrappers` | scalar facts, Option and Result |

Code that updates state is a class or a method with loops, proved against functions on values; the
theorems are lemmas about those functions or invariants that every method keeps.

## Modelling choices

- Prices, sizes and USD amounts are exact reals. The code computes with 28-digit decimals and stores
  floats; NaN and infinite values do not exist here.
- Times are integers counting microseconds, and the clock, the random draws and the venues' answers are
  inputs. Clocks never run backwards between steps of one service.
- Each committed transaction is one atomic step. In the executor any commit may fail, which ends the whole
  tick where it stands; how many succeed is an input for each opportunity. A screener tick has one instant.
- A venue is any function from an order to an answer or an exception and a true fill, between zero and
  the order's size. Statements about exposure ask that the answer tells the true fill, statements about
  profit that fills respect the limit price.
- A contract limit of zero counts as no limit, as in the code. The release heap is kept as its ascending
  contents. Dictionaries are maps, visited in any order.
- The market-out's limit is the configured slippage around the middle of the book
  (`backend/src/option_arb/services/executor.py:642`), not the 5% the comment at `:611` announces; the model
  follows the code. `PaperMarketOut` says what that does on the paper venue.
- The relay's steps are the moments its code can be interleaved at; any function may measure the bytes of
  an encoded event.

## What the proofs bring to light

- The gates of the sizing search are downward-closed, but two of the floors checked afterwards are not:
  an opportunity can be rejected for its profit or for lack of margin although a smaller size clears
  everything. `ProfitLadder.AcceptedSizeIff` says exactly when, `ProfitPeaksIff` and `FundsRejectionIff`
  give the usual cases, `ProfitFloorHidesASmallerSize` an example. The other two floors never do this
  (`SizeFloorsRejectJustly`).
- `compare_options` emits nothing when one venue holds both best quotes. `SilenceHidesASpreadIff` says
  exactly when that hides a positive spread; no venue's quote being crossed rules it out
  (`UncrossedPickIsBest`), and `SilentOnOneVenue` is an example.
- One key of the one-to-one screener can have two LIVE rows; `OneLiveIffRecent` says exactly when for a
  detection, `OneLiveAfterTickIff` for a whole tick, and `TwoLiveRowsCoexist` is an example.
- FILLED trades with unequal partial fills and HEDGED trades with a partial market-out carry the exposure
  that `TerminalExposure` states. FAILED is flat exactly if the venues' answers tell the true fills
  (`FailedIsFlatIffHonest`); an exception raised after a true fill leaves a position that no row shows
  (`ExceptionHidesAFill`).
- The profit recorded for a HEDGED trade leaves out both fees of the leg, so it is true exactly when both
  are zero (`HedgedLeavesOutFees`).
- The position limit bounds the trades not yet closed only up to the STUCK ones (`UnclosedWithinLimit`).
- The premium cap bounds the premium and not what buying costs: `CostsAtMostIff` gives the exact bound, and
  `CapCoversIff` and `FundsCoverIff` say when the cap and the known funds cover it on all books.
- A publish reaches a listener that stays connected if and only if it is well typed and takes at most 7000
  bytes whole or less than 8000 with its payload truncated (`ExactlyOnceWhileConnected`); no payload is too
  large for that (`ArrivesWithAnyPayload`). A failed notification is swallowed, and a publish whose connection
  is gone is lost for good (`LostConnectionStaysLocal`).
- A retry loop does not ask the breaker again: `Request` says exactly which of its attempts are sent while
  the breaker is open, and `AloneHistory` what decides that when nobody else uses it.

## Model

| member | source | states |
|---|---|---|
| OrderBook.WalkBook | backend/src/option_arb/exchanges/base.py:34-54 | the loop with its early break returns the fill and the volume-weighted price of the greedy walk, (0, 0) when nothing is walked |
| OrderBook.WalkFillsMinOfSizeAndDepth | backend/src/option_arb/exchanges/base.py:34-54 | a walk fills the requested size or the whole depth, whichever is smaller |
| OrderBook.WalkIsFeasible | backend/src/option_arb/exchanges/base.py:44-51 | what the walk takes is an allocation within every level, adding up to its fill and its cost |
| OrderBook.WalkIsCheapest | backend/src/option_arb/exchanges/base.py:34-54 | no allocation of the same amount over an ascending book costs less than the walk |
| OrderBook.WalkEarnsMost | backend/src/option_arb/exchanges/base.py:34-54 | no allocation of the same amount into a descending book earns more than the walk |
| OrderBook.VwapAscends | backend/src/option_arb/exchanges/base.py:34-54 | asking for more, within the book or beyond it, never lowers the average price paid |
| OrderBook.VwapDescends | backend/src/option_arb/exchanges/base.py:34-54 | asking to sell more, within the book or beyond it, never raises the average price received |
| OrderBook.VwapAtLeastBest | backend/src/option_arb/exchanges/base.py:34-54 | whenever anything is bought the average is no better than the best ask |
| OrderBook.WalkStopsAtDepth | backend/src/option_arb/exchanges/base.py:34-54 | a request larger than the book costs and fills what a request for the whole book does |
| OptionEconomics.MarginBounds | backend/src/option_arb/economics.py:27-34 | a short option ties up between 10% and 15% of spot, the full 15% at or in the money |
| OptionEconomics.MarginInDollars | backend/src/option_arb/economics.py:27-34 | the margin of a contract is 15% of spot less what the option is out of the money in dollars, for a call and for a put, but never below 10% of spot, which it falls to exactly from 5% out of the money on |
| OptionEconomics.DaysCounted | backend/src/option_arb/economics.py:37-40 | a day has 24 hours |
| OptionEconomics.DaysCompare | backend/src/option_arb/economics.py:37-40 | days to expiry are within a limit exactly when the clock says so |
| OptionEconomics.CalculateDefined | backend/src/option_arb/economics.py:43-72 | the calculation yields figures exactly for a priceable contract with positive prices and size |
| OptionEconomics.CalculatePerUnit | backend/src/option_arb/economics.py:73-96 | profit and capital are per-unit figures scaled by the size, and the return does not depend on the size at given prices |
| OptionEconomics.CalculateReports | backend/src/option_arb/economics.py:73-96 | the figures fit together: profit and fees make the gross profit, the return over the capital is the profit, the yearly rate over the days is a year of the return, the price spread over the premium is the gross profit |
| TradeSizing.PassesPerUnit | backend/src/option_arb/services/executor.py:443-475 | a size passes exactly when both books fill it, the contract can be priced and the per-unit figures at the two limit prices clear the gates |
| TradeSizing.PricedAtWalks | backend/src/option_arb/services/executor.py:443-475 | a priced size records both walked averages, the two limits at slippage from them, and the calculation at these limits with each leg's own fee |
| TradeSizing.FirstSpotIs | backend/src/option_arb/services/executor.py:415 | the spot is a positive one of the buying book if it has one, otherwise of the selling book |
| TradeSizing.GatesAreConfigured | backend/src/option_arb/services/executor.py:376-396 | the gates are the configured ones, the cap lowered to the known funds; no attempt is made exactly when known funds leave no positive cap |
| TradeSizing.PassesDownwardClosed | backend/src/option_arb/services/executor.py:727-734 | on ordered books, if a size clears all four gates every smaller positive size does |
| TradeSizing.MaxSizeIsUpperBound | backend/src/option_arb/services/executor.py:706-724 | the starting size bounds every size that the books can fill and the cap can pay for |
| TradeSizing.MaxSizeIff | backend/src/option_arb/services/executor.py:706-724 | a size is at most the starting size exactly when both books hold it, the cap pays for it at the best ask with slippage and the contract limit allows it |
| TradeSizing.LargestSizeIff | backend/src/option_arb/services/executor.py:423-431 | so for an attempt on its own books, cap, slippage and contract limit |
| TradeSizing.NothingToStartFrom | backend/src/option_arb/services/executor.py:706-724 | without a side, or a positive best ask, the starting size is not positive |
| TradeSizing.PassingSizesAreWithinCap | backend/src/option_arb/services/executor.py:706-724 | no passing size within the contract limit is above the starting size of the search |
| TradeSizing.LargestPassingSize | backend/src/option_arb/services/executor.py:737-760 | the bisection returns the largest size when it passes, otherwise a passing size that no acceptable one exceeds by a search step (1/2^20 of the range), and nothing only when no size of at least a step passes |
| TradeSizing.SearchIsNearOptimal | backend/src/option_arb/services/executor.py:737-760 | with the real gates that bound holds for every passing size within the contract limit |
| TradeSizing.EmptyBookRejectsNothingPassing | backend/src/option_arb/services/executor.py:429-431 | a starting size of zero or less means that no size passes |
| TradeSizing.DecidedIsAuthorised | backend/src/option_arb/services/executor.py:763-781 | a size that survives the floors satisfies the whole authorisation: premium within the cap and the known funds, profit positive and above its floor, quantity at least both minima, margin within the known funds |
| TradeSizing.FloorsInOrder | backend/src/option_arb/services/executor.py:763-781 | a passing size is accepted exactly when premium, profit, quantity and margin all suffice, and otherwise turned down for the first that does not |
| TradeSizing.WalkAndVerify | backend/src/option_arb/services/executor.py:398-441 | each verdict is reached in the order of the code, and an authorised trade carries all its promises |
| TradeSizing.SizeFloorsRejectJustly | backend/src/option_arb/services/executor.py:763-778 | a size turned down for its premium or its quantity hides no smaller passing size that would be accepted |
| TradeSizing.ProfitFloorHidesASmallerSize | backend/src/option_arb/services/executor.py:774-775 | a concrete book where the largest passing size misses the profit floor and a smaller one clears everything; ProfitLadder.AcceptedSizeIff says exactly when |
| PremiumCap.AuthorisedStaysWithinBound | backend/src/option_arb/services/executor.py:376-396 | on any ordered books, an authorised trade costs at most the cap (the configured maximum or the known buy funds, the smaller) and one buy fee on it, and its setting is admissible |
| PremiumCap.AuthorisesSomeIff | backend/src/option_arb/services/executor.py:398-441 | some ordered books make the executor authorise a trade exactly under an admissible setting: fees, slippage, cap, minimum premium, minimum sizes, contract limit and sell funds checked before any book is seen |
| PremiumCap.CostsAtMostIff | backend/src/option_arb/services/executor.py:376-396 | the cap and one fee on it is the exact bound: buying stays within a limit on every pair of ordered books exactly when an admissible setting has that bound within it |
| PremiumCap.CapCoversIff | backend/src/option_arb/services/executor.py:376-396 | the cap itself covers premium and fee on all books exactly when the buy fee is zero |
| PremiumCap.FundsCoverIff | backend/src/option_arb/services/executor.py:376-396 | the known buy funds cover both on all books exactly when the fee is zero or the configured maximum premium and its fee fit in them |
| ProfitLadder.ProfitPeaksIff | backend/src/option_arb/services/executor.py:443-475 | no smaller size nets more than a passing one exactly when the deepest ask level it touches still clears the deepest bid level it touches, after slippage and fees |
| ProfitLadder.WorthwhileSizesAreAnInterval | backend/src/option_arb/services/executor.py:443-475 | between two passing sizes whose profit reaches a floor every size reaches it |
| ProfitLadder.LadderEarnsProfit | backend/src/option_arb/exchanges/base.py:34-54 | walking the ladder of unit profits earns what walking both books does, after slippage and fees |
| ProfitLadder.ReachReaches | backend/src/option_arb/services/executor.py:774-775 | the size read off the ladder is within the bound and reaches the floor |
| ProfitLadder.ReachIsLargest | backend/src/option_arb/services/executor.py:774-775 | and no larger size within the bound does |
| ProfitLadder.AcceptedSizeIff | backend/src/option_arb/services/executor.py:763-781 | some size up to a passing one clears the gates and all four floors exactly when the largest one that the funds margin and whose profit reaches the floor does, a size read off the two books; so a rejection, whatever floor it is for, hides an acceptable smaller size exactly then |
| ProfitLadder.ProfitFloorRejectsJustly | backend/src/option_arb/services/executor.py:774-775 | where the deepest levels still clear each other a size that misses the profit floor hides no acceptable one |
| ProfitLadder.FundsRejectionIff | backend/src/option_arb/services/executor.py:779-780 | a rejection for lack of margin hides nothing without funds; otherwise, if profit grows up to the size the funds margin or the profit floor is not positive, it hides an acceptable size exactly when that one is acceptable |
| Settlement.SimulateHonoursOrder | backend/src/option_arb/exchanges/slippage.py:31-58 | the paper venue never fills beyond the order or the limit, for every draw, and reports FILLED exactly when it filled and the book is deep enough |
| Settlement.SimulateFills | backend/src/option_arb/exchanges/slippage.py:31-58 | an order not rejected at random fills up to the depth of the book at the average of its walk with the noise on top, exactly when that average is within the limit; otherwise nothing is reported filled |
| Settlement.NetPnlIsCash | backend/src/option_arb/services/executor.py:521-539 | for fills of any two sizes the recorded profit is what selling brings after its venue's fee less what buying costs with its own |
| Settlement.EqualFillsEarnVerifiedProfit | backend/src/option_arb/services/executor.py:521-539 | equal fills within both limits earn at least the verified profit in proportion to the fill, hence a positive amount |
| Settlement.FullFillsEarnVerifiedProfit | backend/src/option_arb/services/executor.py:532-539 | two full fills within the limits earn at least the verified profit |
| Settlement.FullFillsMeetTheGuarantee | backend/src/option_arb/services/executor.py:532-539 | two full fills of an authorised trade record at least the verified profit and the profit floor, for a premium within the cap and the known buy funds |
| Settlement.PaperTradeMeetsTheGuarantee | backend/src/option_arb/exchanges/slippage.py:31-58 | the same for paper trading on whatever the books have become |
| Settlement.UnchangedAsksFill | backend/src/option_arb/services/executor.py:460-461 | on the asks it was sized on, an order not rejected at random fills in full exactly when the noise stays within the slippage allowance |
| Settlement.UnchangedBidsFill | backend/src/option_arb/services/executor.py:460-461 | the same for the bids |
| StableSorting.SortedIsOrderedPermutation | backend/src/option_arb/services/opportunity_backtest.py:144 | sorting by a key gives an ordered permutation |
| StableSorting.SortIsStable | backend/src/option_arb/services/opportunity_backtest.py:195 | for every key the elements with that key keep their order |
| BacktestAdmission.ReleaseDue | backend/src/option_arb/services/opportunity_backtest.py:156-158 | popping the heap leaves deployed exactly what the taken positions hold at the candidate's entry |
| BacktestAdmission.AdmitAll | backend/src/option_arb/services/opportunity_backtest.py:146-175 | the heap, the running total and the instrument map decide every candidate as the definition that looks at all taken positions, and count the skips |
| BacktestAdmission.BudgetHoldsAlways | backend/src/option_arb/services/opportunity_backtest.py:165-171 | at every instant the capital of taken positions with entry <= t < expiry is within the budget |
| BacktestAdmission.EveryCandidateIsCounted | backend/src/option_arb/services/opportunity_backtest.py:150-175 | candidates = taken + dedup skips + budget skips |
| BacktestAdmission.TakenAreDisjoint | backend/src/option_arb/services/opportunity_backtest.py:160-164 | under dedup, taken positions on one instrument are pairwise disjoint in [entry, expiry) |
| BacktestAdmission.SkipsAreJustified | backend/src/option_arb/services/opportunity_backtest.py:160-168 | every skipped candidate overlaps a taken position on its instrument at its entry or would break the budget there |
| BacktestCurve.CollectEvents | backend/src/option_arb/services/opportunity_backtest.py:190-194 | one entry event per position, and one release when it expires by the horizon |
| BacktestCurve.Sweep | backend/src/option_arb/services/opportunity_backtest.py:195-220 | the loop's series, peak, area and realised profit are those of the sorted timeline |
| BacktestCurve.EventsReleaseFirst | backend/src/option_arb/services/opportunity_backtest.py:190-195 | the events are listed so that, at equal times, every release precedes every entry, which the sort by time alone preserves |
| BacktestCurve.PeakIsExact | backend/src/option_arb/services/opportunity_backtest.py:204-206 | the peak is the maximum over all instants of the capital locked, and it is attained |
| BacktestCurve.SeriesIsExact | backend/src/option_arb/services/opportunity_backtest.py:207-218 | every point is the true capital and realised profit at its instant, instants strictly increase, and the last is now |
| BacktestCurve.SeriesIsComplete | backend/src/option_arb/services/opportunity_backtest.py:197-218 | at every instant up to now the last point so far tells the capital active and the profit realised, and before the first point there is neither |
| BacktestCurve.AreaIdentity | backend/src/option_arb/services/opportunity_backtest.py:198-216 | the accumulated area is the sum of capital * (min(expiry, now) - entry) over the taken positions |
| BacktestCurve.AreaWithinPeak | backend/src/option_arb/services/opportunity_backtest.py:197-222 | the area is never negative and fits under the peak over the period |
| BacktestReport.PeakOf | backend/src/option_arb/services/opportunity_backtest.py:275-285 | the loop inside one pair finds that pair's peak |
| BacktestReport.BreakdownByPair | backend/src/option_arb/services/opportunity_backtest.py:269-296 | one row per venue pair that occurs, each with the figures of its own positions, ranked as BreakdownIsOrdered says |
| BacktestReport.RankedIsRanking | backend/src/option_arb/services/opportunity_backtest.py:270-295 | ranking permutes rows given by name into descending profit and keeps those of equal profit by name |
| BacktestReport.BreakdownIsOrdered | backend/src/option_arb/services/opportunity_backtest.py:269-296 | the breakdown lists its pairs by descending profit and then by name |
| BacktestReport.SubsetIs | backend/src/option_arb/services/opportunity_backtest.py:273-274 | the positions of a pair are exactly those taken that buy and sell on its venues |
| BacktestReport.TotalsAdd | backend/src/option_arb/services/opportunity_backtest.py:226-227 | total profit and total fees grow by those of each position |
| BacktestReport.PairPeaksBracketPeak | backend/src/option_arb/services/opportunity_backtest.py:269-296 | each pair peak <= overall peak <= sum of the pair peaks |
| BacktestReport.RowsConserve | backend/src/option_arb/services/opportunity_backtest.py:286-295 | pair counts add up to the positions taken and pair profits to their profit |
| BacktestReport.Simulate | backend/src/option_arb/services/opportunity_backtest.py:132-266 | the whole report from the candidates: counts, curve figures, open positions, fees, the derived figures and the breakdown, and the empty report |
| BacktestReport.CapitalFigures | backend/src/option_arb/services/opportunity_backtest.py:220-248 | 0 <= average capital <= peak, the peak is positive and exact, and efficiency is at most 100% |
| BacktestReport.FiguresAgree | backend/src/option_arb/services/opportunity_backtest.py:224-265 | a budget is at least the peak, so the return on it is the more cautious figure, of the same sign; the win rate is a percentage, full exactly when every position taken wins; the average hold is positive |
| BacktestReport.FiguresMean | backend/src/option_arb/services/opportunity_backtest.py:220-265 | returns are on what they are taken on, the yearly one on the budget if there is one and on the peak otherwise, over the period; the win rate counts positive profits; the average hold is that of the days between entry and expiry |
| BacktestReport.FiguresWithoutBase | backend/src/option_arb/services/opportunity_backtest.py:220-235 | without a positive base there is no return, and a period shorter than a second counts as one |
| BacktestReport.EmptyIsZero | backend/src/option_arb/services/opportunity_backtest.py:96-129 | the empty report is zero throughout but for its counts |
| BacktestReport.BreakdownConserves | backend/src/option_arb/services/opportunity_backtest.py:269-296 | pair counts add up to n_taken and pair profits to realised plus unrealised profit |
| RiskLimits.CounterIsDayPnl | backend/src/option_arb/services/limits.py:40-56 | the sum from midnight on is the profit of the trades opened that day |
| RiskLimits.KillReasonIff | backend/src/option_arb/services/limits.py:59-69 | trading goes on exactly when there is no file, active trades are below their limit and the day has not lost its limit; the reason is the first of these |
| RiskLimits.OnlyRecordedCounts | backend/src/option_arb/services/limits.py:40-56 | trades without a recorded profit count for nothing, others for what is recorded |
| RiskLimits.DayStarts | backend/src/option_arb/services/limits.py:40-43 | midnight starts a day of 24 hours |
| RiskLimits.CheckSurvivesUntilOpening | backend/src/option_arb/services/limits.py:59-69 | a passed check still bounds the day's loss when the trade opens later, even past midnight |
| RiskLimits.DayLossOvershoot | backend/src/option_arb/services/limits.py:67-68 | a day's realised loss exceeds the limit by less than what its last trade lost |
| TradeLedger.OpenKeepsRows | backend/src/option_arb/services/executor.py:267-302 | opening a trade for a pending opportunity keeps every row consistent |
| TradeLedger.ExceptionRejects | backend/src/option_arb/services/executor.py:334-341 | an exception leaves a rejected row without a fill |
| TradeLedger.RejectKeepsRows | backend/src/option_arb/services/executor.py:477-484 | rejecting a pending opportunity keeps every row consistent |
| TradeLedger.UpdateKeepsRows | backend/src/option_arb/services/executor.py:521-598 | changing the newest trade with its opportunity keeps every row consistent |
| TradeLedger.OpenKeepsRisk | backend/src/option_arb/services/executor.py:148-160 | opening after a passed check keeps active trades within the limit and every trade opened within the day's loss |
| TradeLedger.UpdateKeepsRisk | backend/src/option_arb/services/executor.py:521-598 | finishing a trade keeps both |
| TradeLedger.TerminalExposure | backend/src/option_arb/services/executor.py:352-372 | at each terminal status the position left is exactly buy fill - sell fill adjusted by the market-out fill; FAILED is flat |
| TradeLedger.OnlyStuckIsExposed | backend/src/option_arb/services/executor.py:600-700 | under all-or-nothing fills a finished trade carries exposure exactly when it is STUCK |
| TradeLedger.PositionsAreRecordedIffTold | backend/src/option_arb/services/executor.py:352-372 | both positions of a finished trade and its market-out are what the rows show exactly when the venues' answers told the true fills |
| TradeLedger.FailedIsFlatIffTold | backend/src/option_arb/services/executor.py:578-598 | a FAILED trade holds nothing on either venue exactly when the rows tell the true fills |
| TradeLedger.FilledRowMeetsGuarantee | backend/src/option_arb/services/executor.py:532-566 | in every reachable state a FILLED row whose orders record full fills within their limits has at least the verified profit on record |
| TradeLedger.HedgedLeavesOutFees | backend/src/option_arb/services/executor.py:659-671 | the profit on record for a HEDGED trade is that of the contracts closed plus both fees of opening and closing them, so it is the true one exactly when both fee amounts are zero |
| TradeLedger.UnclosedAreActiveOrStuck | backend/src/option_arb/services/limits.py:20-56 | the trades not closed are the active ones and the STUCK ones |
| TradeLedger.UnclosedWithinLimit | backend/src/option_arb/services/limits.py:59-66 | in every reachable state the position limit bounds the trades not closed up to exactly the STUCK ones |
| TradeLedger.StatusesAgree | backend/src/option_arb/services/executor.py:343-372 | at most one trade per opportunity; PENDING has none, EXECUTED iff FILLED or HEDGED, rejected as both_legs_failed iff FAILED, APPROVED iff still worked on or STUCK |
| TradeExecutor.Executor.Detect | backend/src/option_arb/services/screener.py:317-351 | a new opportunity is PENDING and keeps the invariant |
| TradeExecutor.Executor.Reject | backend/src/option_arb/services/executor.py:477-484 | a pending opportunity becomes REJECTED with its reason, and nothing else changes |
| TradeExecutor.Executor.OpenTrade | backend/src/option_arb/services/executor.py:267-302 | one transaction creates the PLACING trade and approves its opportunity |
| TradeExecutor.Executor.Commit | backend/src/option_arb/services/executor.py:505-519 | one transaction changes the newest trade and its opportunity or nothing |
| TradeExecutor.Executor.CommitOrders | backend/src/option_arb/services/executor.py:486-519 | one transaction changes the order rows of the trade being worked on |
| TradeExecutor.Executor.Execute | backend/src/option_arb/services/executor.py:329-337 | what both venues executed becomes the true position while the rows wait |
| TradeExecutor.Executor.PlaceLegs | backend/src/option_arb/services/executor.py:304-341 | both IOC orders are created before either is sent and both answers are recorded |
| TradeExecutor.Executor.DispatchOutcome | backend/src/option_arb/services/executor.py:343-372 | two fills, none or one lead to the row that the answers determine |
| TradeExecutor.Executor.CommitFilled | backend/src/option_arb/services/executor.py:521-576 | both legs filled: FILLED, closed, profit recorded, opportunity EXECUTED |
| TradeExecutor.Executor.CommitFailed | backend/src/option_arb/services/executor.py:578-598 | no leg filled: FAILED, closed, opportunity REJECTED as both_legs_failed |
| TradeExecutor.Executor.MarkHedging | backend/src/option_arb/services/executor.py:600-616 | one leg filled: HEDGING before anything is sent |
| TradeExecutor.Executor.MarketOut | backend/src/option_arb/services/executor.py:600-683 | one market-out order for the filled quantity on the venue that filled; HEDGED if it fills, STUCK if it does not or no book can be fetched |
| TradeExecutor.Executor.SendOut | backend/src/option_arb/services/executor.py:642-655 | the market-out row is created, sent and answered |
| TradeExecutor.Executor.CommitHedged | backend/src/option_arb/services/executor.py:659-683 | HEDGED, closed, profit recorded without fees |
| TradeExecutor.Executor.MarkStuck | backend/src/option_arb/services/executor.py:685-700 | STUCK stays open and leaves its opportunity APPROVED |
| TradeExecutor.Executor.TradeNow | backend/src/option_arb/services/executor.py:188-202 | a trade is opened exactly when the first commit succeeds and, unless an exception cuts it short, ends in the row the answers determine |
| TradeExecutor.Executor.Process | backend/src/option_arb/services/executor.py:145-265 | kill check, expiry, enabled venues, known venues and instruments, fetched books, available funds, sizing and trading of one opportunity keep the invariant; it is rejected with the first reason that applies, the sizing verdict is one of the near-optimal search, a trade opens only after a passed check with an authorised size, and the opportunity does not stay PENDING once a commit succeeds |
| TradeExecutor.Executor.Tick | backend/src/option_arb/services/executor.py:135-146 | the queried opportunities are dealt with in order until the first exception ends the tick; those after it, all others and all earlier trades stay as they were, and new trades are for opportunities the tick got to |
| TradeExecutor.FinalStatus | backend/src/option_arb/services/executor.py:343-372 | whatever the venues answer, an undisturbed run ends in a terminal status, the one the three answers determine |
| TradeExecutor.BlockedIff | backend/src/option_arb/services/executor.py:145-265 | each reason before the books are walked applies exactly when its own condition holds and no earlier one does |
| TradeExecutor.FundsAreWorth | backend/src/option_arb/services/executor.py:790-800 | funds are known exactly when an asset that counts is listed and coins held have a price; they are the dollars of both kinds and the coins at that price |
| TradeExecutor.FundsOfVenues | backend/src/option_arb/services/executor.py:254-265 | each side's funds are its own venue's, at the spot price of the books |
| TradeExecutor.HedgeOrderOnBook | backend/src/option_arb/services/executor.py:618-652 | the market-out closes the whole leg on the side of the book it needs, at a limit worse than the middle of the book by exactly the configured share of it; the middle is that of both best quotes, the only one, or the entry price |
| TradeExecutor.PaperMarketOut | backend/src/option_arb/services/executor.py:600-700 | on an unchanged book whose touch covers the fill the paper venue closes the leg in full and the trade ends HEDGED exactly when the touch, after noise, is within slippage of the middle, for two-sided and one-sided books; without a touch it ends STUCK |
| TradeExecutor.FailedIsFlatIffHonest | backend/src/option_arb/services/executor.py:313-341 | a trade that ends FAILED holds nothing exactly when both venues' answers told the truth |
| TradeExecutor.ExceptionHidesAFill | backend/src/option_arb/services/executor.py:331-337 | an exception raised after a full buy fill ends FAILED with the whole size still held |
| TradeExecutor.RecordedProfitMeetsGuarantee | backend/src/option_arb/services/executor.py:532-539 | when both venues honour and fill their orders the profit on record is at least the verified one, positive and above the floor |
| Snapshots.FirstSampleIsKept | backend/src/option_arb/services/snapshots.py:33-34 | a first detection is its own snapshot |
| Snapshots.SkippedIff | backend/src/option_arb/services/snapshots.py:17-40 | a detection is skipped exactly when one was stored within the interval, within delta and with the same mix |
| Snapshots.RecordingIsKept | backend/src/option_arb/services/snapshots.py:17-40 | after every detection the latest snapshot is that detection or younger than the interval, within delta and of the same venue mix; all earlier detections stay represented; consecutive snapshots are an interval apart or differ by delta or in mix |
| Lifecycle.NewEntryIsOk | backend/src/option_arb/services/screener.py:317-351 | a first detection gives a LIVE row that sums up its history |
| Lifecycle.RefreshedIsOk | backend/src/option_arb/services/screener.py:208-237 | a credited detection keeps closed columns, count, latest figures, peaks and snapshots in step with everything detected |
| Lifecycle.ClosingIsJustified | backend/src/option_arb/services/screener.py:268-292 | a LIVE row is closed, now, exactly when it expired or was not seen for too long, expiry taking precedence; nothing else changes |
| Lifecycle.CloseStaleIsOk | backend/src/option_arb/services/screener.py:268-292 | the sweep keeps every row sound, and every row left LIVE is unexpired and recently seen |
| Lifecycle.Refresh | backend/src/option_arb/services/screener.py:208-237 | the column-by-column update does that, a revived row losing its closing columns |
| Lifecycle.AgeOut | backend/src/option_arb/services/screener.py:274-292 | the two updates of the sweep, one after the other, amount to one ageing of each row |
| Lifecycle.AbsorbedAreShown | backend/src/option_arb/services/screener.py:136-292 | if absorbing a detection puts it on a row and leaves other keys alone, then after absorbing all and ageing each of them is on a row of its key with its figures, live exactly if that row has not expired |
| OpportunityScreener.Built | backend/src/option_arb/services/screener.py:172-183 | exactly the spreads that meet every threshold go on |
| OpportunityScreener.ThresholdsMean | backend/src/option_arb/economics.py:99-122 | a spread is dropped exactly when a figure is below its minimum or its days to expiry are above the maximum |
| OpportunityScreener.FoundShows | backend/src/option_arb/services/screener.py:317-351 | each column of a row holds the figure of its name |
| OpportunityScreener.MatchesWithinTheHour | backend/src/option_arb/services/screener.py:190-207 | a row matches exactly when it is of the key, LIVE or STALE and detected within 60 minutes |
| OpportunityScreener.MatchIsTheOnlyOne | backend/src/option_arb/services/screener.py:190-207 | at most one row can match a detection, so the latest-first order decides nothing |
| OpportunityScreener.TickKeepsTable | backend/src/option_arb/services/screener.py:190-292 | every tick keeps every row sound and unexpired rows of one key more than an hour apart, leaves only current rows LIVE, never changes identity or an EXPIRED row, and only extends history |
| OpportunityScreener.TickShowsSpreads | backend/src/option_arb/services/screener.py:136-292 | after a tick every spread that meets the thresholds is on a row of its key with its figures, live exactly if that row has not expired |
| OpportunityScreener.OneLiveIffRecent | backend/src/option_arb/services/screener.py:190-243 | a detection leaves one LIVE row per key exactly when the LIVE row of its key, if any, was first detected within the hour |
| OpportunityScreener.OneLiveAfterTickIff | backend/src/option_arb/services/screener.py:136-292 | a whole tick ends with one LIVE row per key exactly when no detected row that outlives its ageing was first detected more than an hour before |
| OpportunityScreener.TwoLiveRowsCoexist | backend/src/option_arb/services/screener.py:190 | three ticks after which one key has two LIVE rows |
| OpportunityScreener.Screener.Query | backend/src/option_arb/services/screener.py:193-207 | the query returns the matching row detected last |
| OpportunityScreener.Screener.Credit | backend/src/option_arb/services/screener.py:192-243 | a detection is credited to its match or gets a row of its own, and no executor status changes |
| OpportunityScreener.Screener.Tick | backend/src/option_arb/services/screener.py:136-248 | the tick amounts to absorbing the built spreads in order and then ageing, keeps the lifecycle invariant and leaves the executor's column alone |
| StructuredScreener.LiveRowIsTheMatch | backend/src/option_arb/structured/screener.py:156-169 | the LIVE row of a structure is the one a detection is credited to |
| StructuredScreener.TickKeepsTable | backend/src/option_arb/structured/screener.py:153-250 | every tick keeps every row sound and at most one LIVE row per structure, and never touches a row once closed |
| StructuredScreener.TickShowsBoxes | backend/src/option_arb/structured/screener.py:148-250 | after a tick every detected box is on a row of its structure with its figures and venues, live exactly if that row has not expired |
| StructuredScreener.DetectedKeysDiffer | backend/src/option_arb/structured/screener.py:38-39 | boxes of different structures have different identities |
| StructuredScreener.FoundShows | backend/src/option_arb/structured/screener.py:93-130 | each column of a row holds the figure of its name, and the venue mix the four legs in order |
| StructuredScreener.Screener.Query | backend/src/option_arb/structured/screener.py:156-169 | the first LIVE row with the same strikes is found, or there is none |
| StructuredScreener.Screener.Credit | backend/src/option_arb/structured/screener.py:155-199 | a detection updates the LIVE row of its structure or opens a new one |
| StructuredScreener.Screener.Record | backend/src/option_arb/structured/screener.py:148-202 | the boxes are absorbed in order and the table then ages |
| StructuredScreener.Screener.Tick | backend/src/option_arb/structured/screener.py:71-202 | one tick credits all boxes on what the cache shows, each structure once, ages the table and keeps the lifecycle invariant |
| Quotes.BestPair | backend/src/option_arb/api/tickers.py:84-95 | the two nested loops find the first cross-venue pair of the widest price spread, and none only when there is no such pair |
| Quotes.LowestAsk | backend/src/option_arb/services/comparator.py:96 | the first of the lowest asks |
| Quotes.HighestBid | backend/src/option_arb/services/comparator.py:97 | the first of the highest bids |
| Quotes.PickIsBestIffVenuesDiffer | backend/src/option_arb/services/comparator.py:96-99 | the two linear picks are the best cross-venue pair exactly when they are on different venues |
| Quotes.UncrossedPickIsBest | backend/src/option_arb/services/comparator.py:96-99 | when no venue's own quote is crossed and any venue bids above another's ask, the linear picks are the best pair |
| Quotes.SilenceHidesASpreadIff | backend/src/option_arb/services/comparator.py:96-99 | when one venue holds both picks nothing is emitted, and that hides a positive spread across venues exactly when another venue bids above the lowest ask or asks below the highest bid |
| Quotes.Usable | backend/src/option_arb/services/comparator.py:87-94 | exactly the valid quotes with enough bid-side premium are compared |
| Quotes.UsableIff | backend/src/option_arb/services/comparator.py:55-94 | usable are exactly the quotes with both prices and sizes above zero and a bid side worth the minimum |
| Quotes.PairEarns | backend/src/option_arb/services/comparator.py:106-121 | a pair earns, on the smaller of both sizes, what selling at the bid brings after the seller's fee less what buying at the ask costs with the buyer's; this is positive and defined exactly under the stated conditions |
| Quotes.CompareIff | backend/src/option_arb/services/comparator.py:70-149 | a spread is emitted exactly when the first of the lowest asks and the first of the highest bids among the usable quotes are on different venues and trade at a profit; it is that trade |
| Quotes.NothingUsable | backend/src/option_arb/services/comparator.py:87-94 | nothing is emitted when no quote is usable |
| Quotes.EmittedIsWidest | backend/src/option_arb/services/comparator.py:96-121 | an emitted spread is profitable, crosses venues and shows the price spread that the exhaustive search finds on the same quotes |
| Quotes.EmittedDominates | backend/src/option_arb/services/comparator.py:96-121 | no two usable quotes of different venues show a wider spread |
| Quotes.EmittedIsTradeable | backend/src/option_arb/services/comparator.py:96-121 | it buys and sells at usable quotes, in the largest quantity both offer |
| Quotes.SilentOnOneVenue | backend/src/option_arb/services/comparator.py:98-99 | one crossed venue silences a group in which another pair of venues nets 20 a contract |
| Quotes.CompareOptions | backend/src/option_arb/services/comparator.py:70-149 | an error exactly when a group of two or more mixes instruments, with the names of the first such group, otherwise the spreads of the groups in order |
| BookCache.LastRegisteredWins | backend/src/option_arb/market/book_cache.py:34-36 | a listing is found under its own key, the last of several with one key |
| BookCache.RegisteredElsewhere | backend/src/option_arb/market/book_cache.py:34-36 | other keys are untouched |
| BookCache.WithHeartbeat | backend/src/option_arb/market/book_cache.py:77-85 | a heartbeat can only make a ticker younger and never changes its quote |
| BookCache.ShownIff | backend/src/option_arb/market/book_cache.py:77-97 | a cached ticker is shown exactly when it or a later heartbeat of its underlying is within the time to live, with that time and, if it has one, that heartbeat's spot price |
| BookCache.BookCache.RegisterInstruments | backend/src/option_arb/market/book_cache.py:34-36 | listings are registered under their own keys |
| BookCache.BookCache.Update | backend/src/option_arb/market/book_cache.py:38-54 | a heartbeat is kept aside, a registered quote replaces the cached one, an unregistered one is ignored |
| BookCache.BookCache.EvictExpired | backend/src/option_arb/market/book_cache.py:56-67 | exactly the expired instruments go, with their tickers, and the count is right |
| BookCache.BookCache.Snapshot | backend/src/option_arb/market/book_cache.py:87-89 | exactly the fresh tickers, each key once |
| BookCache.BookCache.ByNormalizedName | backend/src/option_arb/market/book_cache.py:91-97 | a group holds exactly the fresh tickers of its name, at most one per venue |
| BookCache.LiveQuotesAreComparable | backend/src/option_arb/services/screener.py:139-150 | dropping unusable and expired tickers leaves one instrument with distinct venues |
| BookCache.QuoteIff | backend/src/option_arb/services/screener.py:31-48 | a ticker makes a quote exactly when its four prices and sizes are there and not zero, and each field of the quote is the ticker's own |
| BookCache.QuoteGroups | backend/src/option_arb/services/screener.py:139-150 | the groups passed on are the live quotes of the instruments with at least two of them, all of these and each once |
| BookCache.ScreenSpreads | backend/src/option_arb/services/screener.py:138-161 | after any sequence of cache operations the comparison raises no mismatch; each spread buys at the ask of one ticker the cache shows and sells at the bid of another on a different venue, in the smaller of the two sizes, earns that after both fees, and no two shown usable tickers of its instrument are wider; at most one per instrument, and there is one whenever the only best ask and the only best bid shown are on different venues and trade at a profit |
| BoxSpreads.Strikes | backend/src/option_arb/structured/strategies/box.py:49-56 | the strikes with a valid quote, each once, ascending |
| BoxSpreads.OfferedIff | backend/src/option_arb/structured/strategies/box.py:49-54 | on offer are exactly the quotes of the strike and type with both prices and sizes above zero |
| BoxSpreads.EmittedLegs | backend/src/option_arb/structured/strategies/box.py:81-101 | an emitted box has four valid quotes of the right strikes and types, an edge above the per-unit threshold and a total at or above its minimum |
| BoxSpreads.TryBoxIff | backend/src/option_arb/structured/strategies/box.py:68-155 | a box is emitted exactly when the edge of the picked legs, the first of the lowest asks and of the highest bids on offer, is above the threshold per unit and over the least of the four sizes reaches the total; it has those legs |
| BoxSpreads.BuildHasEdge | backend/src/option_arb/structured/strategies/box.py:91-104 | its edge is the width less what the bought legs cost and plus what the sold legs bring, each after its own fee; size, total, entry cost, fees and capital follow |
| BoxSpreads.BuildSpot | backend/src/option_arb/structured/strategies/box.py:135-140 | its spot price is the first one that its legs give, in their order |
| BoxSpreads.SizeIsAvailable | backend/src/option_arb/structured/strategies/box.py:103 | its size is the largest that all four legs offer |
| BoxSpreads.FlagsTellVenues | backend/src/option_arb/structured/strategies/box.py:134-144 | the payoff is marked fixed exactly on one venue, and at settlement risk exactly when a leg on the coin-settled venue meets one on another |
| BoxSpreads.BoxIsLocked | backend/src/option_arb/structured/strategies/box.py:91-104 | for every settlement price a box nets its edge on every unit, its four legs priced and charged one by one, and its reported total at full size |
| BoxSpreads.EntryIsCheapest | backend/src/option_arb/structured/strategies/box.py:64-92 | no other choice of venues enters cheaper |
| BoxSpreads.EdgeIsLargestUnderOneFee | backend/src/option_arb/structured/strategies/box.py:91-99 | where all venues charge one fee rate no other choice has a larger edge |
| BoxSpreads.NoBoxUnderParity | backend/src/option_arb/structured/strategies/box.py:91-101 | none is emitted when some prices obeying put-call parity lie inside all valid quotes, for a non-negative per-unit threshold and fees |
| BoxSpreads.GroupBoxes | backend/src/option_arb/structured/strategies/box.py:48-60 | exactly one box per pair of strikes k1 < k2 that yields one, by ascending strikes |
| BoxSpreads.DetectBoxes | backend/src/option_arb/structured/strategies/box.py:30-61 | exactly the boxes of the groups within the horizon, each structure once |
| BoxSpreads.BoxEmittedIff | backend/src/option_arb/structured/strategies/box.py:30-101 | for every group and k1 < k2 there is a box exactly when the group expires within the horizon, all four strike and type pairs have a valid quote and the picked legs meet both thresholds |
| BoxGroups.GroupQuotes | backend/src/option_arb/structured/screener.py:71-83 | every unexpired quote is filed once under its underlying and expiry, and exactly the markets with at least four are groups |
| BoxGroups.ScreenBoxes | backend/src/option_arb/structured/screener.py:148-151 | after any sequence of cache operations the boxes are all those of the markets with at least four quotes shown, each structure once, and every leg is a valid unexpired quote the cache shows of the right strike and type |
| PayoffChart.PayoffSeries | frontend/src/pages/structured/payoff.ts:46-70 | null exactly for incomplete legs or k2 <= k1, otherwise the requested number of points, each at its place; a single point is not a number |
| PayoffChart.ChartSpansStrikes | frontend/src/pages/structured/payoff.ts:54-62 | the charted prices ascend from 60% of the distance of the strikes below the low one to as far above the high one |
| PayoffChart.FindFour | frontend/src/pages/structured/payoff.ts:23-30 | four legs of a box are told apart by type and side |
| PayoffChart.ChartLegsAreQuoted | frontend/src/pages/structured/payoff.ts:46-70 | the charted legs are the box's own, bought at the ask and sold at the bid |
| PayoffChart.BullPlusBear | frontend/src/pages/structured/payoff.ts:61-67 | the two spreads add up to the box before fees exactly when their debits add up to the entry cost |
| PayoffChart.ChartOfBox | frontend/src/pages/structured/payoff.ts:46-70 | the chart of a detected box exists, shows its edge as the flat line and the payoffs of its quoted legs as the spreads, which add up to that line plus the fees |
| EventRelay.DecodeEncode | backend/src/option_arb/db/event_relay.py:107-132 | decoding an encoded event gives it back, at most its payload truncated, and fails for exactly the unknown types and levels |
| EventRelay.FromDictIff | backend/src/option_arb/events.py:53-70 | an event is malformed exactly for an unknown type or level; a missing time is now, a missing payload empty |
| EventRelay.PublishedAreWellTyped | backend/src/option_arb/events.py:12-34 | every event the services publish is well typed, and there are no other types or levels |
| EventRelay.PublishIsOk | backend/src/option_arb/events.py:110-118 | a publish, which delivers locally and queues for the send lock, keeps the invariant of every process |
| EventRelay.SendIsOk | backend/src/option_arb/db/event_relay.py:96-105 | so does the send, on the connection read before the wait, which may be gone by then |
| EventRelay.HandledIsOk | backend/src/option_arb/db/event_relay.py:120-132 | a handled notification keeps the invariant: garbage, echoes and malformed events are dropped, others delivered once |
| EventRelay.RunIsOk | backend/src/option_arb/db/event_relay.py:96-179 | every interleaving of publishes, sends, sends abandoned anywhere in the queue, handled notifications, noise and connection changes of any number of processes keeps the invariant |
| EventRelay.AtMostOnce | backend/src/option_arb/events.py:103-118 | no process's bus gets a publish twice |
| EventRelay.NotifiedAtMostOnce | backend/src/option_arb/db/event_relay.py:96-105 | no publish is notified twice and nothing but publishes ever is, so nothing received is sent on |
| EventRelay.PublisherGetsItsOwn | backend/src/option_arb/events.py:110-111 | the publisher's own bus gets every event exactly once, connected or not |
| EventRelay.ListenersGetAll | backend/src/option_arb/db/event_relay.py:120-132 | a listening process that has caught up has got every well-typed event notified since it began to listen exactly once |
| EventRelay.ExactlyOnceWhileConnected | backend/src/option_arb/db/event_relay.py:96-132 | an event is published over an open connection while another process listens, both stay connected, and in the end the one has sent and the other has caught up: whatever else happens, it has reached the other if and only if it is well typed and takes at most 7000 bytes whole or less than 8000 with its payload truncated, and then exactly once |
| EventRelay.ArrivesWithAnyPayload | backend/src/option_arb/db/event_relay.py:107-116 | a well-typed event that fits with its payload truncated arrives whatever its payload |
| EventRelay.LostConnectionStaysLocal | backend/src/option_arb/db/event_relay.py:96-105 | a publish not yet notified when the connection it waits for is closed, lost or replaced never gets to another process, whatever happens later |
| EventRelay.UnconnectedStaysLocal | backend/src/option_arb/db/event_relay.py:96-105 | neither does one published without an attached relay or an open connection |
| EventRelay.ConnectionLife | backend/src/option_arb/db/event_relay.py:134-179 | a connection hears from listening on, sends from being ready on, still hears when released, and neither when lost or closed |
| EventRelay.StartIsIdle | backend/src/option_arb/db/event_relay.py:134-179 | at the start nobody is attached, connected or has anything |
| EventRelay.RemoteEventsAreFaithful | backend/src/option_arb/db/event_relay.py:107-116 | an event from another process was notified and is the original, with its payload truncated exactly when its encoding is over 7000 bytes |
| EventRelay.OnlyWhatFitsIsNotified | backend/src/option_arb/db/event_relay.py:96-116 | in every run whatever was notified is below the limit of the database |
| EventRelay.OnlyWhatFitsTravels | backend/src/option_arb/db/event_relay.py:96-132 | in every run a publish gets to the bus of another process only if it is well typed and its encoding is below that limit |
| EventBus.UnreadKeepsOldest | backend/src/option_arb/events.py:103-108 | a queue nobody reads keeps the oldest events it has room for and misses the rest |
| EventBus.Bus.Subscribe | backend/src/option_arb/events.py:90-93 | a new empty queue joins the others |
| EventBus.Bus.Unsubscribe | backend/src/option_arb/events.py:95-97 | the queue leaves, the others keep their order |
| EventBus.Bus.AttachRelay | backend/src/option_arb/events.py:99-101 | from then on publishes are relayed, or no longer are |
| EventBus.Bus.DeliverLocal | backend/src/option_arb/events.py:103-108 | every subscriber is offered the event exactly once, a full queue holding up nobody |
| EventBus.Bus.Publish | backend/src/option_arb/events.py:110-118 | local subscribers are served first, then the relay if attached, and its exception is swallowed |
| CircuitBreaker.PruningForgetsNothing | backend/src/option_arb/exchanges/http.py:35-38 | pruning a pruned list is pruning the full history |
| CircuitBreaker.TripsIff | backend/src/option_arb/exchanges/http.py:35-41 | with a threshold of n a failure is one too many exactly when the n-th last one up to it is less than a window old |
| CircuitBreaker.RunIsOk | backend/src/option_arb/exchanges/http.py:31-52 | in every run of failures, successes and questions the breaker is open exactly when, since the last reset, some failure was one too many within a window, and its time is that of the first such failure |
| CircuitBreaker.AskedIff | backend/src/option_arb/exchanges/http.py:43-52 | a question resets a breaker that has been open for longer than the cooldown, and nothing else |
| CircuitBreaker.ClosedAfterCooldown | backend/src/option_arb/exchanges/http.py:43-52 | in every run whoever asks more than the cooldown after the last failure finds the breaker closed |
| CircuitBreaker.Breaker.RecordFailure | backend/src/option_arb/exchanges/http.py:35-41 | the breaker, which keeps only pruned failures, trips exactly when it is not tripped and enough failures since the last reset are younger than the window |
| CircuitBreaker.Breaker.RecordSuccess | backend/src/option_arb/exchanges/http.py:31-33 | a success forgets all failures and closes the breaker |
| CircuitBreaker.Breaker.IsOpen | backend/src/option_arb/exchanges/http.py:43-52 | open until the cooldown has passed, then reset |
| CircuitBreaker.Breaker.Interleave | backend/src/option_arb/exchanges/http.py:31-52 | any sequence of these has the effect of the definition on values |
| CircuitBreaker.Attempt | backend/src/option_arb/exchanges/http.py:112-136 | one attempt is recorded once, whatever other requests do to the shared breaker before it is sent and while it is under way |
| CircuitBreaker.Request | backend/src/option_arb/exchanges/http.py:100-136 | the breaker is asked once, before the first attempt; attempts follow until one succeeds or none is left, each failure is recorded once, a success resets; an attempt is sent while the breaker is open exactly when the failures recorded so far, its own and those of others, tripped it since the last reset |
| CircuitBreaker.AloneHistory | backend/src/option_arb/exchanges/http.py:100-136 | for a request that has the breaker to itself those are the failures before the call and its own |

## Left out

- TradeExecutor.Executor.Process: whether venues, instruments and books are there, and the funds they report, are inputs, because they come from configuration and network calls; notices published between and after commits are not modelled.
- TradeExecutor.Executor.DispatchOutcome: the statuses LEG1_FILLED and LEG2_FILLED never occur, because the code never sets them; event texts are not modelled.
- TradeLedger.TerminalExposure: asks that the venues' answers tell the true fills, because no row can know more; PositionsAreRecordedIffTold says that otherwise the rows do not show the positions.
- TradeLedger.HedgedLeavesOutFees: asks that the recorded prices of the leg and of the market-out are not negative, because an answer's price is the venue's.
- BacktestReport.Simulate: the rounding of the period for display is not modelled.
- BacktestAdmission.BudgetHoldsAlways: asks for a budget that is not negative and for well-formed candidates, which `backend/src/option_arb/api/analytics.py:42`, `:81` and `:92` establish.
- Settlement.FullFillsMeetTheGuarantee: fills must respect the limit price, because no venue can be seen; for the paper venue this is proved.
- Quotes.EmittedIsWidest: says nothing when nothing is emitted, because the linear pick may then differ from the exhaustive one.
- Quotes.BestPair: the figures computed from the best pair and the rest of the table row are not modelled.
- BookCache.BookCache.ByNormalizedName: the order of instruments and of venues within a group is arbitrary, so which of two equal quotes is picked is not tied to insertion order.
- StructuredScreener.Screener.Tick: the network column and the spot price of a row, which keeps its last known value, are not modelled; the two flags of a row are those that FlagsTellVenues derives from its stored venue mix.
- BoxSpreads.BoxIsLocked: pays in dollars at one settlement price; for boxes marked as settlement risk the code itself does not promise that.
- EventRelay.RunIsOk: the relay and its connection are values of a state machine, because the statements are about many processes at once; the queues of one process are the class in EventBus.
- CircuitBreaker.Request: rate limiting, backoff delays and the Retry-After header are not modelled, except that they decide the times of the attempts.
- Venue adapters, authentication, signing and WebSocket transport: input and output that cannot be seen.
- Perpetual hedging, retention, migrations, alerts, heartbeat files, record and replay: small or library work.
- The web interface other than the payoff chart.
