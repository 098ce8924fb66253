# Verification of the trading system's decision logic

This project models the decision logic of a crypto trading system written in Go and proves properties of it in
Dafny: the compliance gate, the risk daemon, the two-leg executor, the rolling statistics, the windowed detectors
and gates, and the one-pass statistics of the scanner. `dafny verify dfyconfig.toml` checks all of it.

Objects that the source updates in place are classes whose methods are proved against a specification: a function
of the inputs and the old state, or of the whole history, kept in a ghost field. The lemmas then say what the
specification guarantees over every run. Decimals and floats are `real`. Every method runs under one lock in the
source, so it is one atomic step here; clocks and prices are parameters, or arbitrary values drawn by
`Venue.Session`. Of the exchange two things are assumed: a reduce-only order executes no more than there is to reduce
and is reported filled only once nothing of it or of the position was left, and an order reported at an end executes
no more. Otherwise any live order may execute, in any part, between any two calls, during an unwind too; so may
orders that an earlier `Execute` call left live. Nobody else orders on the account while a call runs.

## What is in each file

| file | models |
|---|---|
| RealSeq.dfy, Calendar.dfy | sums, windows, sums over maps and calendar days, shared by the others |
| Moments.dfy, Correlation.dfy, Basis.dfy | rolling returns, Pearson correlation, OLS beta, premium statistics and z-score |
| Exchange.dfy, Venue.dfy | orders, replies and rounding; the exchange as a sequence of steps, and what a stretch of them does to a position |
| Executor.dfy, Legs.dfy, Hedging.dfy, PartialFill.dfy | the order protocol; what every order, fill and event of a run is; what every run guarantees about hedges and unwinds; a run that leaves a leg open |
| ChallengeRules.dfy, ChallengeDaemon.dfy, ChallengeRuns.dfy | the challenge rules, the compliance gate with its approval loop, its runs |
| RiskSpec.dfy, RiskDaemon.dfy, RiskRuns.dfy | the risk daemon as a function of its input log, as mutable state, and what alerts, mode and marks mean over runs |
| Dominance.dfy | the gate against the risk daemon |
| CircuitBreaker.dfy, Guardrails.dfy, Regime.dfy, Allocator.dfy | the windowed detectors and budget gates |
| RiskManager.dfy, TrackerSpec.dfy, Tracker.dfy, Indicators.dfy | position sizing, outcome statistics, indicators |

## What the proofs found

- In a challenge phase with a distribution limit below 100%, no win is ever accepted while the running profit is
  zero: the win is the whole of the total it is compared with (`ChallengeRules.NoFirstWin`).
- The approval step divides by the number of legs. That fails exactly for an intent without legs that passes a
  disabled, un-halted gate (`ChallengeRuns.DivisionByZeroExactly`).
- An equity update is documented to return the most severe warning, but returns the daily one first: the more
  severe one is lost exactly when equity is down by the day's soft but not its hard percentage, and overall by the
  hard percentage but not by a breach (`ChallengeRuns.ReportedIsMostSevereExactly`), which two equity updates reach
  (`ChallengeRuns.LessSevereReported`). The model follows the code.
- `MinPartialFillPct` is documented as the smallest partial fill worth hedging, but nothing reads it. A hedge leg
  filled for any positive quantity counts as filled: the run ends with no HEDGE_FAILED and the rest of the first leg
  unhedged (`Hedging.PartHedgeCounterexample`). With two legs, going by the fills reported, everything filled is
  hedged exactly when a run reports neither HEDGE_FAILED nor ORDER_PARTIAL for the second leg
  (`Hedging.HedgedUnlessReported`).
- Only the last filled leg is unwound. Partial hedges apart, every run at least attempts to reverse every leg that is
  left filled alone, if and only if the intent has at most two legs (`Hedging.AttendedIfWholeExactly`); with them, at
  most one (`Hedging.AttendedExactly`). An attempt can fail too: every run ends with every filled leg hedged only for
  intents of at most one leg (`Hedging.HedgedExactly`). A negative number of retries orders nothing at all.
- A partial fill is accepted without cancelling the rest of the order, which goes on executing. So ORDER_FILLED after
  an unwind does not mean that the leg is closed (`PartialFill.PartialFillCounterexample`). It does, whatever else
  happens, if and only if every order in the leg's direction is at its end when the reversal is sent and no more is
  open than it reverses (`Venue.FilledMeansFlatExactly`); in every run, what is left is bounded by what live entry
  orders executed and what was open beyond the quantity reversed (`Hedging.UnwindBounds`).
- The gate's caps bound the exposure it tracks, not the one it has approved: as long as nothing is closed, the two
  agree if and only if no approval was on a symbol that is tracked already (`ChallengeRuns.TrackedIsApprovedExactly`),
  because such an approval replaces the entry and restarts its stop-loss deadline
  (`ChallengeRuns.ApprovalAddsExactly`). An intent approved twice is approved any number of times
  (`ChallengeRuns.RepeatedApprovals`): a funded gate with a notional cap of 100 approves 20 as often as it is asked,
  and tracks 20 (`ChallengeRuns.ApprovedBeyondCaps`).
- The risk daemon prunes its events at every reading of the clock. The error rate is exact under a clock that does not
  go back (`RiskSpec.RateIsExact`); what a buffer misses otherwise is exactly the events of the window that an earlier
  reading found over five minutes old (`RiskSpec.PruningLosesNothingExactly`, `RiskSpec.ClockGoneBackCounterexample`).
- The allocator's cash-reserve check can never reject anything (`Allocator.CashReserveNeverRejects`). Its combined
  cap is redundant exactly while the other side leaves room (`Allocator.CombinedRedundantForFunding`,
  `Allocator.CombinedRedundantForBasis`): in every state of a run whose deployable capital never shrinks, and not
  once it has shrunk (`Allocator.ShrinkingCapitalCounterexample`).
- The gate's high-water mark dominates the risk daemon's daily peak as long as neither clock goes back, the gate polls
  every equity that the risk daemon publishes, and both take it on the same day (`Dominance.HighWaterDominates`). One
  update that both take loses it exactly when only the gate restarts its day and the old peak is above the old and the
  new equity (`Dominance.DominanceLostExactly`): under a clock that goes back (`Dominance.ClockGoingBackCounterexample`),
  but also when an update is read on both sides of midnight, and then the risk daemon asks for FLATTEN and the gate
  approves an intent (`Dominance.MidnightCounterexample`). One that the gate never polls loses it exactly when it is
  above the mark (`Dominance.DominanceMissedExactly`).
- The circuit breaker's pruning changes no verdict on any stream of quotes that are at most so late, if and only if
  that is at most one window (`CircuitBreaker.PruningInvisibleExactly`).
- `SetMode` is documented as an operator's action, but the margin monitor of the risk daemon's main loop also
  calls it and can lower HALTED to FLATTEN. The risk mode is a running maximum only between such calls
  (`RiskSpec.ModeIsMaximum`).
- The funding scale factor falls with severity only if `ReducePositionPct` is at most 75
  (`Regime.ScaleAntitoneExactly`).

## Model

| member | source | states |
|---|---|---|
| `Moments.CauchySchwarz` | internal/strategy/correlation.go:105-117 | for every paired sample the two variance sums are non-negative and the squared covariance sum is at most their product, so the square root taken by the code exists |
| `Moments.LeastSquares` | internal/strategy/correlation.go:138-151 | the slope cov/var with its intercept leaves at most the squared error of any other line |
| `Correlation.Tracker.constructor` | internal/strategy/correlation.go:43-53 | the window is at least 10, and there is no history |
| `Correlation.Tracker.RecordPrices` | internal/strategy/correlation.go:61-91 | non-positive prices change nothing; otherwise the pair is added to the history, and the window stays exactly the last returns of the whole history of accepted prices |
| `Correlation.TracksNext` | internal/strategy/correlation.go:71-90 | one more accepted price, appended and trimmed, keeps the window equal to the last returns of the history |
| `Correlation.ReturnMeaning` | internal/strategy/correlation.go:78-90 | each sample of the window times the price before is the price difference between two accepted prices in a row, for both assets |
| `Correlation.UnitsDoNotMatter` | internal/strategy/correlation.go:78-151 | multiplying every price of either asset by a positive constant leaves the window, the correlation and beta as they were |
| `Correlation.PairIdsDiffer` | internal/strategy/correlation.go:54-57 | pairs of names without a colon have different identifiers |
| `Correlation.Tracker.Correlation` | internal/strategy/correlation.go:95-122 | the result is Pearson's coefficient of the window, or 0 with too few samples or no spread, and lies in [-1, 1] |
| `Correlation.Pearson` | internal/strategy/correlation.go:115-121 | the root's argument is never negative and the quotient by the root lies in [-1, 1] |
| `Correlation.Tracker.Beta` | internal/strategy/correlation.go:127-152 | 1 with too few samples or no spread, else the slope of a line through the window with the least squared error of all lines |
| `Correlation.BestSlope` | internal/strategy/correlation.go:146-151 | the quotient returned is optimal over all intercepts and slopes |
| `Basis.Tracker.constructor` | internal/strategy/basis.go:39-44 | no samples and an empty history under the given window and minimum |
| `Basis.PremiumIsShare` | internal/strategy/basis.go:48-57 | the premium times the index price is the price difference |
| `Basis.Tracker.RecordPremium` | internal/strategy/basis.go:48-65 | a non-positive index price changes nothing; otherwise the premium joins the history and the window is its last windowSize values |
| `Basis.Tracker.RecordPairSpread` | internal/strategy/basis.go:69-87 | the same for the logarithm of the price ratio, under the pair's key |
| `Basis.Tracker.Record` | internal/strategy/basis.go:57-64 | append-then-trim keeps every window equal to the last windowSize observations ever recorded under its key |
| `Basis.Tracker.Stats` | internal/strategy/basis.go:90-117 | count, exact mean, and the root of the squared deviations over n - 1, of the window |
| `Basis.Tracker.CurrentValue` | internal/strategy/basis.go:120-129 | the last value of the window, if any |
| `Basis.Tracker.ZScore` | internal/strategy/basis.go:133-145 | the standardised last value or 0, and n times its square is at most (n - 1) squared because it is a member of its own sample |
| `Basis.LastDeviation` | internal/strategy/basis.go:133-145 | the last value's squared deviation is at most (n - 1)/n of the whole spread, for every sample |
| `Calendar.Day` | internal/risk/daemon.go:356-359 | a time lies within the 24 hours of its day |
| `Exchange.RoundPriceNearest` | internal/exchange/types.go:117-122 | a rounded price is a whole number of ticks and at most half a tick away |
| `Exchange.RoundsHalfAway` | internal/exchange/types.go:117-122 | half a tick is rounded away from zero |
| `Exchange.RoundPriceMonotone` | internal/exchange/types.go:117-122 | rounding prices keeps their order, with and without a tick |
| `Exchange.RoundQtyLoss` | internal/exchange/types.go:124-129 | rounding a quantity to lots never adds to it and drops less than one lot |
| `Venue.Session.PlaceOrder` | internal/exchange/exchange.go:15 | the request is logged also when the answer is an error, and anything legal may happen before and after it; an answer that the order is at its end is true, and all else about it is arbitrary |
| `Venue.Session.GetOrder` | internal/execution/executor.go:355-358 | an arbitrary answer, except that an order reported at its end is closed, and a reduce-only one reported filled has nothing of it or of the position left |
| `Venue.SizeBounds` | internal/execution/executor.go:373-435 | over any stretch of steps a position stays between nothing less what entry orders of the other direction executed, and what it was plus what its own direction executed |
| `Venue.ReducingOrder` | internal/execution/executor.go:390-421 | what a reduce-only order executed is gone from the position, and once it is closed at most what others added and what was open beyond its quantity is left |
| `Venue.FilledMeansFlatExactly` | internal/execution/executor.go:400-421 | on a book with no other reduce-only order in the position's own direction, a reduce-only order reported filled leaves nothing open in every continuation, if and only if every order in that direction was at its end and no more was open than it reverses |
| `Executor.Executor.constructor` | internal/execution/executor.go:39-53 | zero settings are replaced by 3 retries, 2000 ms of drift, a minimum partial fill of 0.10, which nothing reads, and 2000 ms of reconciliation delay |
| `Executor.Executor.PollOrderStatus` | internal/execution/executor.go:352-369 | at most ten polls, stopping at the first answer that settles the order, which is returned; none otherwise |
| `Executor.Executor.ReverseOnce` | internal/execution/executor.go:390-421 | one reduce-only order and its polls; if it is reported filled, nothing of it or of the position was left when it closed |
| `Executor.Executor.EmergencyUnwind` | internal/execution/executor.go:373-435 | for every behaviour of the exchange: the orders are the first 1 to 4 reversals of the filled quantity in the opposite direction, retried until the first one reported filled; exactly one outcome event is appended, ORDER_FILLED only if the last order is closed; what the exchange did meanwhile is a legal stretch of steps with exactly these orders and replies |
| `Executor.Executor.SendOrder` | internal/execution/executor.go:182-241 | one rung of the ladder: ORDER_SENT, the order, its polls, ORDER_RETRY after a refusal unless it was the last, and a cancellation of what did not execute unless it was the last; an order last reported at an end is closed |
| `Executor.Executor.SendOrders` | internal/execution/executor.go:157-242 | the orders are the first rungs of the leg's ladder; it stops at the first order that executes, otherwise sends every rung |
| `Executor.Executor.Prepare` | internal/execution/executor.go:73-152 | which of expiry, drift, missing price and minimum notional stops a leg, on exactly which readings, and the terms otherwise; only drift leaves an event |
| `Executor.Executor.RunLeg` | internal/execution/executor.go:72-305 | orders, events, replies consumed and fill result of one leg are those of its record: a leg is filled exactly when an order of it executed, with that order's quantity, fees and price, or the reference price when it reports none |
| `Executor.Executor.Execute` | internal/execution/executor.go:57-349 | for every sequence of replies, prices and clock readings, and every account with orders of earlier calls, the orders sent, the event list and the summary are exactly those of a run of the protocol, and an unwind is a legal stretch of the exchange's steps that starts where the legs ended |
| `Executor.Executor.Summarise` | internal/execution/executor.go:307-334 | a summary exists exactly when some leg was filled; its fees are the sum over the legs, and its prices and net PnL those of the first two legs when both are filled |
| `Executor.OneMoreLeg` | internal/execution/executor.go:72-305 | a started leg extends orders, events and replies by exactly its own and keeps every earlier result |
| `Executor.Unwound` | internal/execution/executor.go:373-435 | a run with an unwind is the legs' orders and events followed by the unwind's orders and its one event |
| `Legs.StoppedExactly` | internal/execution/executor.go:72-152 | leg j is overdue exactly when its first clock reading is after the expiry, and drifted exactly when its second is more than the allowed drift after the fill before it; otherwise it is given up exactly without a non-zero price or for an order below the minimum notional |
| `Legs.OrderMeaning` | internal/execution/executor.go:125-191 | every entry order of every run: symbol and side of its leg, LIMIT and last IOC; its leg's own notional after no or a complete fill, else the filled notional, divided by beta for another symbol; the lots that this affords at the price read, and at least the minimum; a price at (attempt + 1)/(retries + 1) of the slippage against the trader, within half a tick |
| `Legs.QuantityMeaning` | internal/execution/executor.go:138-142 | the quantity is the most whole lots that the target pays for, or the minimum quantity |
| `Legs.OrdersInSequence` | internal/execution/executor.go:157-191 | the orders are sent leg by leg and attempt by attempt, one for every try |
| `Legs.LadderMeaning` | internal/execution/executor.go:157-242 | a leg that is ordered has at most one more try than retries, and exactly that many if it is not filled; one that is not ready has none |
| `Legs.TryMeaning` | internal/execution/executor.go:204-241 | every order of every run: at most ten polls, until an answer that is neither open nor an error, which is then the last that is heard of the order; a cancellation exactly of an accepted order that has not executed and is not the last |
| `Legs.ReversalMeaning` | internal/execution/executor.go:373-398 | the reversals follow the orders of the legs, each a reduce-only market order against the last filled leg for its filled quantity |
| `Legs.ReversalsStop` | internal/execution/executor.go:373-435 | at most four reversals, none but the last reported filled, and fewer than four only if the last is |
| `Legs.OutcomeMeaning` | internal/execution/executor.go:400-434 | the event that ends an unwind: of the reversed leg, a fill exactly if its last order was reported filled, with no action if that was refused |
| `Legs.FillMeaning` | internal/execution/executor.go:262-283 | a filled leg has the quantity and fees of its last order, the first that executed, its price or the price read when it reports none, and their product as notional |
| `Legs.UnfilledMeaning` | internal/execution/executor.go:69-70 | a leg that is not filled has no result |
| `Legs.SummaryMeaning` | internal/execution/executor.go:307-349 | a summary exists exactly when some leg was filled: fees of all legs, and if the first two are filled their prices, the buying one as the buy price, and the relative price difference on the first leg's filled notional less fees |
| `Legs.LegEvents` | internal/execution/executor.go:193-305 | the events of one leg: ORDER_SENT and, for each refused order that another follows, ORDER_RETRY, then one that says what became of it; HEDGE_DRIFT alone for a drifted leg, nothing for one given up otherwise |
| `Legs.EventsInSequence` | internal/execution/executor.go:193-305 | the events of the legs come leg by leg, each with its leg's symbol |
| `Hedging.FilledPrefix` | internal/execution/executor.go:72-305 | in every run the filled legs are a prefix, and an unwind happens exactly when some but not all legs were filled, on the last filled one |
| `Hedging.FilledExactly` | internal/execution/executor.go:226-234 | a leg that was ordered is filled if and only if the last thing heard of some order of it is a full fill, or a partial one of a positive quantity |
| `Hedging.AttendedByCount` | internal/execution/executor.go:244-260 | in one run every filled leg is attended to, by complete fills of all legs (the first may be partial, and the next sized to it) or an attempted reversal, exactly when none or just the first was filled, or all completely |
| `Hedging.AttendedExactly` | internal/execution/executor.go:244-260 | every run attends to every filled leg if and only if the intent has at most one leg, or the retry setting is negative and nothing is ordered |
| `Hedging.AttendedIfWholeExactly` | internal/execution/executor.go:244-260 | every run in which no hedge is filled only in part attends to every filled leg if and only if the intent has at most two legs, or nothing is ordered |
| `Hedging.HedgedExactly` | internal/execution/executor.go:373-435 | every run leaves every filled leg hedged, by complete fills or a reversal reported filled, if and only if the intent has at most one leg, or nothing is ordered |
| `Hedging.HedgedUnlessReported` | internal/execution/executor.go:226-305 | with at most two legs, a run leaves every filled leg hedged, going by the fills reported, exactly when it reports no HEDGE_FAILED and no ORDER_PARTIAL for the second leg |
| `Hedging.PartHedgeCounterexample` | internal/execution/executor.go:226-234 | for every configuration, two-leg intent and positive quantity, a run that fills leg 0 for 10 and leg 1 for that quantity, reports no HEDGE_FAILED and leaves leg 0 neither hedged nor attended to |
| `Hedging.TwoLegsHedged` | internal/execution/executor.go:55-57 | a two-leg run fills neither leg; or both, and then reverses nothing even if leg 1 was filled in part, which is the only case not attended to; or leg 0 alone, and then attempts to reverse it, in the opposite direction, for its filled quantity |
| `Hedging.UnwindBounds` | internal/execution/executor.go:373-435 | at every moment of an unwind the leg's position lies between nothing and what was open, but for live entry orders of its symbol; an unwind that ends filled leaves at most what those executed and what was open beyond the quantity reversed |
| `Hedging.EndedMeansQuiet` | internal/execution/executor.go:226-241 | if no order of an earlier call in a direction was live, and every order of this call's legs in it was last reported at an end, none of them can execute any more |
| `Hedging.EndedUnwindIsFlat` | internal/execution/executor.go:400-421 | if moreover no more was open than the filled quantity, ORDER_FILLED as the last event means that nothing is left open |
| `PartialFill.PartialFillCounterexample` | internal/execution/executor.go:226-241 | a run whose leg 0 is partially filled for 4 of 10 and whose reversal of 4 is reported filled with 6 open, because the rest of the entry order was live |
| `Hedging.OrdersAccountedFor` | internal/execution/executor.go:157-191 | every order of a run is a rung of its leg's ladder of at most MaxRetriesPerLeg + 1 orders, only the last of it immediate-or-cancel, or one of at most four reduce-only orders on the same terms, and no client order id is used twice |
| `Hedging.EventsAccountedFor` | internal/execution/executor.go:193-305 | one ORDER_SENT for every order, one fill event for every filled leg, ORDER_PARTIAL exactly for a partial one, HEDGE_FAILED only as the outcome of an unwind, and that outcome once and last |
| `Hedging.LadderWidens` | internal/execution/executor.go:165-180 | a retry never offers a better price than the attempt before, and no attempt passes the worst acceptable price, after rounding, for both directions |
| `Hedging.SlippageIsShare` | internal/execution/executor.go:165-180 | before rounding, a price is off the reference price by exactly its share of the allowed slippage, against the trader |
| `Hedging.WorstPriceBounded` | internal/execution/executor.go:165-180 | no order is priced further from the reference price than the allowed slippage and half a tick, if there is a tick |
| `Hedging.HedgeFollowsPartialFill` | internal/execution/executor.go:125-142 | after a partial fill of leg 0 the hedge is ordered for the filled notional over beta, less than one lot short of it if there are lots, and never above it unless the minimum quantity forces more |
| `Hedging.NetPnlMeaning` | internal/execution/executor.go:335-346 | the summary's net PnL and fees relate to the notional of leg 0 as the price difference to the mean price, and are positive exactly for a sale above the purchase |
| `ChallengeRules.DailyDrawdownMeaning` | internal/challenge/rules.go:26-74 | the level is breach, hard or soft exactly when equity is down by that percentage of the high-water mark |
| `ChallengeRules.OverallDrawdownMeaning` | internal/challenge/rules.go:92-134 | the same against the initial balance |
| `ChallengeRules.WinAcceptedExactly` | internal/challenge/rules.go:187-214 | in a challenge phase a win p is accepted exactly when p(100 - P) <= P times the running profit |
| `ChallengeRules.NoFirstWin` | internal/challenge/rules.go:187-214 | with no running profit and P < 100 every win is refused |
| `ChallengeRules.ProfitGrowth` | internal/challenge/rules.go:187-214 | profit through any number of accepted wins is at most the starting profit times (100/(100 - P)) to that number |
| `ChallengeRules.WinStaysWithinLimit` | internal/challenge/rules.go:177-214 | every accepted win is within P percent of the total at every later time |
| `ChallengeDaemon.Daemon.constructor` | internal/challenge/daemon.go:72-90 | equity and high-water mark are the initial balance, nothing is open, and the gate is not halted |
| `ChallengeDaemon.Daemon.ResetDailyIfNeeded` | internal/challenge/daemon.go:101-115 | a new UTC day restarts the mark at the current equity and changes nothing else but the day and its traded flag |
| `ChallengeDaemon.Daemon.UpdateEquity` | internal/challenge/daemon.go:125-164 | the new state is the day roll, the equity, the raised mark, and a halt exactly at a breach level; which level is reported |
| `ChallengeDaemon.Daemon.RecordTrade` | internal/challenge/daemon.go:172-201 | profit or loss, the count and the trading day are recorded, also when the distribution rule is violated |
| `ChallengeDaemon.Daemon.TrackPosition` | internal/challenge/daemon.go:209-230 | the symbol's position is replaced and both totals are again the sums over the map |
| `ChallengeDaemon.Daemon.ConfirmStopLoss` | internal/challenge/daemon.go:233-241 | marks a known position, changes no total |
| `ChallengeDaemon.Daemon.ConfirmPairedStopLoss` | internal/challenge/daemon.go:611-625 | marks both known positions |
| `ChallengeDaemon.Daemon.ClosePosition` | internal/challenge/daemon.go:244-250 | removes the position and both totals are again the sums over the map |
| `ChallengeDaemon.Daemon.RecalcExposure` | internal/challenge/daemon.go:254-261 | the totals are the sums over the map, in any order of iteration |
| `ChallengeDaemon.Daemon.ValidateIntent` | internal/challenge/daemon.go:273-352 | the first violated rule in the source's order, on the rolled day, with exposure taken as sums over the map |
| `ChallengeDaemon.Daemon.ApproveIntent` | cmd/challenge-daemon/main.go:89-123 | validate, split the notional by legs, track: the verdict and the whole new state, with the division's failure as an outcome |
| `ChallengeDaemon.Daemon.PositionsWithExpiredStopLoss` | internal/challenge/daemon.go:509-521 | exactly the symbols past their deadline with no stop |
| `ChallengeDaemon.Daemon.Reset` | internal/challenge/daemon.go:530-537 | clears the halt and nothing else |
| `ChallengeRuns.AcceptedExactly` | internal/challenge/daemon.go:273-352 | an enabled gate accepts an intent if and only if all eight rules hold, each stated without division |
| `ChallengeRuns.ReasonExactly` | internal/challenge/daemon.go:279-349 | for every state and intent, each reason is returned if and only if its rule is broken and none before it, over drawdown bands, leg sums and deadlines, with a drawdown's level by its band |
| `ChallengeRuns.DivisionByZeroExactly` | cmd/challenge-daemon/main.go:119-122 | the per-leg division fails if and only if the intent has no legs and the gate is disabled and not halted |
| `ChallengeRuns.MarginNeverExceedsCap` | internal/challenge/daemon.go:325-338 | in funded mode, in every reachable state of any interleaving, the margin of the tracked positions is within the cap and all of them carry positive exposure |
| `ChallengeRuns.ApprovalStaysWithinCaps` | cmd/challenge-daemon/main.go:96-123 | an approval keeps the tracked margin within its cap, ends within the notional cap at the current equity, and never divides by zero |
| `ChallengeRuns.TrackedAsApproved` | cmd/challenge-daemon/main.go:115-123 | an approved intent is tracked with its whole notional, and a margin that times the number of legs is the notional; nothing else changes |
| `ChallengeRuns.ApprovalAddsExactly` | internal/challenge/daemon.go:209-230 | an approval adds its notional to the tracked one if and only if the symbol was not tracked yet; otherwise the entry is replaced, and its deadline restarts with no stop |
| `ChallengeRuns.TrackedIsApprovedExactly` | internal/challenge/daemon.go:209-230 | over any run that closes nothing, the tracked notional is everything approved if no approval was on a symbol already tracked, and less if one was |
| `ChallengeRuns.RepeatedApprovals` | cmd/challenge-daemon/main.go:89-123 | for every gate, an intent approved twice at the same readings is approved any number of times, each for its whole notional, and the gate's state is the one after the first |
| `ChallengeRuns.ApprovedBeyondCaps` | cmd/challenge-daemon/main.go:89-123 | from its start, for every k, a funded gate with caps of 100 and 50 approves 20 k times, and tracks a notional of 20 and a margin of 10 |
| `ChallengeRuns.HaltedExactly` | internal/challenge/daemon.go:125-164 | after any run the gate is halted if and only if some equity update since the last reset left it down by a breach percentage of the mark or of the initial balance |
| `ChallengeRuns.HaltedRejectsEverything` | internal/challenge/daemon.go:279-282 | a halted gate refuses every intent, also when disabled, at any equity and on any day |
| `ChallengeRuns.ReportedIsMostSevereExactly` | internal/challenge/daemon.go:159-163 | the level returned by an equity update is the more severe of the two, except exactly when equity is down by the day's soft but not its hard percentage of the mark and by the overall hard but not the breach percentage of the initial balance |
| `ChallengeRuns.LessSevereReported` | internal/challenge/daemon.go:159-163 | two equity updates from the start that end in that case: soft is returned and hard holds |
| `ChallengeRuns.HighWaterIsDayMaximum` | internal/challenge/daemon.go:97-136 | within a day the mark is the largest of the equity the day started from and the equities reported on it |
| `ChallengeRuns.OverdueBlocks` | internal/challenge/daemon.go:340-349 | once a position is past its deadline with no stop, every intent is refused until that symbol is confirmed or closed, whatever else happens |
| `ChallengeRuns.SettledDoesNotBlock` | internal/challenge/daemon.go:232-252 | a confirmed or closed symbol blocks no more, and a confirmed one stays tracked with its exposure |
| `ChallengeRuns.NetPnlIsSumOfResults` | internal/challenge/daemon.go:459-463 | net PnL is the sum of all recorded results, and the profit side the sum of the winning ones |
| `ChallengeRuns.TradingDaysExactly` | internal/challenge/daemon.go:176-180 | the trading days are exactly the UTC days on which a trade was closed |
| `ChallengeRuns.TradedTodayExactly` | internal/challenge/daemon.go:101-112 | the gate has traded today exactly when a trade was closed and no later reading was on another day |
| `ChallengeRuns.LedgerFromStart` | internal/challenge/daemon.go:72-90 | from the start of a gate, profit, net PnL, trade count, trading days and today's mark are exactly those of the trades closed |
| `ChallengeRuns.RunProfitGrowth` | internal/challenge/rules.go:187-214 | over any run of the gate whose wins each passed the distribution check, the profit side is at most the starting one times (100/(100 - P)) to the number of wins |
| `RiskSpec.RecentTwice` | internal/risk/daemon.go:339-348 | pruning to two cutoffs, in either order, is pruning to the later one |
| `RiskSpec.FewerErrorsThanFills` | internal/risk/daemon.go:73-85 | at any cutoff at most as many errors as fills are left, of the buffers and of the whole log |
| `RiskSpec.ErrorRateInRange` | internal/risk/daemon.go:324-336 | the rate found in the buffers, and the one over the whole log, are in [0, 100] |
| `RiskSpec.PruningLosesNothingExactly` | internal/risk/daemon.go:324-348 | a buffer shows the same events of a window as the whole log if and only if none of them was over five minutes old at an earlier reading of the clock; otherwise it shows fewer |
| `RiskSpec.RateIsExact` | internal/risk/daemon.go:324-336 | under a clock that does not go back, the rate found in the buffers is the one over every fill of the last five minutes, although they are compacted at every reading |
| `RiskSpec.ClockGoneBackCounterexample` | internal/risk/daemon.go:324-348 | an error, a reading over five minutes later and a clock set back: the rate over the window is 100 and the one found is 0 |
| `RiskSpec.EscalateIsMaximum` | internal/risk/daemon.go:297-321 | a sequence of escalations ends at the maximum of the mode and all targets |
| `RiskSpec.ModeIsMaximum` | internal/risk/daemon.go:21-25 | between overrides the mode is the maximum of where it started and every escalation asked for since: it never falls, and it is one of them |
| `RiskRuns.ReportedEscalates` | internal/risk/daemon.go:201-292 | whenever the reported overall drawdown is at the safe or the halting threshold, or the daily one at the soft or the hard one, with a positive equity, the mode is at least SAFE, HALTED, FLATTEN or HALTED, unless overridden since the last equity update |
| `RiskRuns.AlertsExactly` | internal/risk/daemon.go:238-292 | the alerts of an evaluation, in order, each if and only if its condition holds, without division: the share of errors, then the fall from the overall peak, then the fall from the day's, the severe one of each instead of the mild |
| `RiskRuns.ModeExactly` | internal/risk/daemon.go:21-25 | unless overridden, the mode is at least what it was and every mode that had a cause since, by errors, falls and mismatches, and is what it was or had one itself; an override sets it |
| `RiskRuns.ReportedMeaning` | internal/risk/daemon.go:201-231 | the reported drawdowns and error rate times their base are a hundred times the fall and the errors, and zero without a base |
| `RiskRuns.PeakIsMaximum` | internal/risk/daemon.go:102-105 | the overall peak is the largest of zero and every equity reported |
| `RiskRuns.CurrentIsLast` | internal/risk/daemon.go:94 | the equity in force is the last one reported |
| `RiskRuns.NoEquityYet` | internal/risk/daemon.go:56-67 | before any equity is reported the equity and both peaks are zero |
| `RiskRuns.DailyPeakIsMaximum` | internal/risk/daemon.go:96-109 | the day is the latest that was read, and its peak the largest equity since it began |
| `RiskSpec.UnhedgedSinceMeaning` | internal/risk/daemon.go:156-178 | under any clock the marker is the time of the first of the stretch of unhedged snapshots that ends the log, and 0 if there is none read at another time than 0 |
| `RiskSpec.MismatchFlattensExactly` | internal/risk/daemon.go:156-165 | under any clock a snapshot flattens if and only if the unhedged stretch it ends has lasted the close threshold |
| `RiskRuns.MismatchWarnsExactly` | internal/risk/daemon.go:166-176 | a snapshot warns if and only if its unhedged stretch has lasted the alert threshold and not the close threshold |
| `RiskRuns.UnhedgedMeaning` | internal/risk/daemon.go:137-152 | a snapshot is unhedged exactly when longs and shorts differ by more than a twentieth of their positive total |
| `RiskDaemon.EventBuffer.PruneOlderThan` | internal/risk/daemon.go:339-348 | in-place compaction leaves exactly the events at or after the cutoff, in order |
| `RiskDaemon.EventBuffer.Append` | internal/risk/daemon.go:78-82 | one more event, also when the slice has to grow |
| `RiskDaemon.Daemon.constructor` | internal/risk/daemon.go:56-67 | the running mode, no marks, empty buffers |
| `RiskDaemon.Daemon.ErrorRate5m` | internal/risk/daemon.go:324-336 | both buffers are compacted to the last five minutes, and the rate is the share of errors in what is left |
| `RiskDaemon.Daemon.EscalateTo` | internal/risk/daemon.go:297-321 | the mode becomes the maximum of itself and the target |
| `RiskDaemon.Daemon.CheckErrorRate` | internal/risk/daemon.go:241-249 | pauses exactly when the rate found in the buffers is above the limit |
| `RiskDaemon.Daemon.CheckOverallDrawdown` | internal/risk/daemon.go:251-269 | halts, goes safe or does nothing by the drawdown from the overall peak |
| `RiskDaemon.Daemon.CheckDailyDrawdown` | internal/risk/daemon.go:271-289 | halts, flattens or does nothing by the drawdown from the daily peak |
| `RiskDaemon.Daemon.Evaluate` | internal/risk/daemon.go:238-292 | the alerts are every escalation the whole log calls for, and the mode their maximum with the old one |
| `RiskDaemon.Daemon.RecordFill` | internal/risk/daemon.go:73-85 | state and alerts are those of the input log with the fill added |
| `RiskDaemon.Daemon.UpdateEquity` | internal/risk/daemon.go:89-112 | peaks, current equity, mode and alerts are those of the input log with the equity added; the day is that of a second reading of the clock |
| `RiskDaemon.Daemon.DoTick` | internal/risk/daemon.go:115-119 | a re-evaluation without new data |
| `RiskDaemon.Daemon.CurrentState` | internal/risk/daemon.go:201-231 | mode, both drawdowns, peak, equity and error rate are those of the input log; reading them prunes the buffers |
| `RiskDaemon.Daemon.RecordPositionSnapshot` | internal/risk/daemon.go:125-181 | marker, mode, escalation and warning are those of the input log with the snapshot added |
| `RiskDaemon.Daemon.HasUnhedged` | internal/risk/daemon.go:137-152 | the two loops decide whether the net exposure is above 5% of the total size |
| `RiskDaemon.Daemon.OverrideMode` | internal/risk/daemon.go:185-191 | the override sets the mode, also downward |
| `Dominance.AlwaysRelated` | internal/challenge/daemon.go:101-135 | the relation between gate and risk daemon that holds after every prefix of a feed, when neither clock goes back, the gate polls every published value, and both take it on the same day |
| `Dominance.HighWaterDominates` | internal/risk/daemon.go:89-112 | under these conditions, after every equity update that both have taken the gate's high-water mark is at least the risk daemon's daily peak |
| `Dominance.DominanceLostExactly` | internal/risk/daemon.go:96-108 | one update, read by each daemon on its own clock, loses the dominance if and only if the gate restarts its day, the risk daemon does not, and the old peak is above both the old and the new equity |
| `Dominance.DominanceMissedExactly` | cmd/challenge-daemon/main.go:151-154 | a published value that the gate never polls loses the dominance if and only if it is above the mark |
| `Dominance.ClockGoingBackCounterexample` | internal/challenge/daemon.go:101-115 | three updates under a clock that goes back end with the peak above the mark |
| `Dominance.MidnightCounterexample` | internal/challenge/daemon.go:101-115 | two clocks that do not go back, the last of three updates read a millisecond apart across midnight: the risk daemon asks for FLATTEN, the enabled gate approves an intent |
| `Dominance.SoftHaltMeansRejection` | internal/risk/daemon.go:271-289 | under these conditions, once both have taken an update that brings the risk daemon to its daily soft halt, the enabled gate refuses every intent until the equity or the day changes, whatever else happens |
| `CircuitBreaker.PruningLosesNothing` | internal/risk/circuitbreaker.go:94-111 | for a quote at most one window late the kept samples show a move exactly when all samples since the reset do |
| `CircuitBreaker.PrunedAgrees` | internal/risk/circuitbreaker.go:72-135 | on every timely stream of quotes the pruning breaker gives every quote the verdict of one that never prunes, and ends in the same state |
| `CircuitBreaker.PruningInvisibleExactly` | internal/risk/circuitbreaker.go:94-111 | the verdicts agree on every stream of quotes at most so late, if and only if that is at most one window |
| `CircuitBreaker.MoveMeaning` | internal/risk/circuitbreaker.go:104-108 | a sample shows a move exactly when it is in the window and the price is off it by the threshold percentage, without division |
| `CircuitBreaker.SpreadMeaning` | internal/risk/circuitbreaker.go:120-124 | a spread is abnormal exactly when it is above the threshold share of the mid price, without division |
| `CircuitBreaker.VerdictExactly` | internal/risk/circuitbreaker.go:72-135 | a quote at a positive price is a flash crash exactly when some sample in the window is off by the threshold, else an abnormal spread exactly when that is above its threshold, without division |
| `CircuitBreaker.OpenExactly` | internal/risk/circuitbreaker.go:138-160 | a state that remembers its log is open exactly by the log of verdicts and resets |
| `CircuitBreaker.Breaker.constructor` | internal/risk/circuitbreaker.go:63-68 | no symbol has a state |
| `CircuitBreaker.Breaker.RecordQuote` | internal/risk/circuitbreaker.go:72-135 | the whole new state; for a timely quote the verdict is that of a breaker that keeps every price since the reset; the verdict joins the symbol's log |
| `CircuitBreaker.Breaker.Quote` | internal/risk/circuitbreaker.go:84-134 | the per-symbol part of that |
| `CircuitBreaker.Breaker.Prune` | internal/risk/circuitbreaker.go:94-102 | exactly the leading samples more than two windows old are dropped, and all of those are outdated |
| `CircuitBreaker.Breaker.HasMoved` | internal/risk/circuitbreaker.go:105-118 | the loop finds a move exactly when some sample in the window shows one |
| `CircuitBreaker.Breaker.IsOpen` | internal/risk/circuitbreaker.go:138-160 | over every stream of quotes and resets: open if and only if the last quote reported as a trip since the reset, at t, has now before t plus the cooldown, which is positive, or the last quote is older than the limit |
| `CircuitBreaker.Breaker.IsOpenAny` | internal/risk/circuitbreaker.go:163-177 | open exactly when some symbol is, by its log |
| `CircuitBreaker.Breaker.Reset` | internal/risk/circuitbreaker.go:192-201 | forgets the trip and the prices of that symbol, not its last quote time, and nothing of others |
| `Guardrails.Guard.constructor` | internal/scanner/guardrails.go:83-90 | fresh counters on the current day |
| `Guardrails.Guard.MaybeResetDaily` | internal/scanner/guardrails.go:312-323 | a new day clears the counters and keeps the halt, the cooldowns and the open trades |
| `Guardrails.Guard.CheckPreTrade` | internal/scanner/guardrails.go:95-134 | the first refusal in the source's order on the rolled day, the cooldown at a second reading of the clock |
| `Guardrails.Guard.RegisterAlertReceived` | internal/scanner/guardrails.go:138-147 | starts the alert's cooldown |
| `Guardrails.Guard.RecordTradeOpened` | internal/scanner/guardrails.go:151-160 | counts the trade on the rolled day and remembers it at a second reading of the clock |
| `Guardrails.Guard.RecordTradeResult` | internal/scanner/guardrails.go:164-190 | books the result, extends or ends the losing run, and forgets the trade and its cooldown |
| `Guardrails.Guard.CheckTimeStops` | internal/scanner/guardrails.go:193-210 | exactly the trades open longer than the limit |
| `Guardrails.Guard.DoHalt` | internal/scanner/guardrails.go:213-219 | halts and changes nothing else |
| `Guardrails.Guard.DoResume` | internal/scanner/guardrails.go:222-228 | resumes and changes nothing else |
| `Guardrails.Guard.DailyStatus` | internal/scanner/guardrails.go:231-265 | the counters, and the refusal that every alert would get today |
| `Guardrails.RefusalExactly` | internal/scanner/guardrails.go:95-134 | each refusal holds if and only if its limit is reached and none before it in order |
| `Guardrails.HaltedExactly` | internal/scanner/guardrails.go:213-228 | over every run the guard is halted exactly when a halt has not been resumed since |
| `Guardrails.CooldownExactly` | internal/scanner/guardrails.go:126-147 | over every run an alert waits until its cooldown after it last came in, and not at all once its result has been recorded |
| `Guardrails.CountersExactly` | internal/scanner/guardrails.go:151-190 | on every day the counters are the trades opened, the sum of the results and the length of the losing run that ends them |
| `Guardrails.OpenExactly` | internal/scanner/guardrails.go:151-190 | a trade is open, since the second reading, exactly from its opening to its result |
| `Guardrails.BudgetHolds` | internal/scanner/guardrails.go:92-190 | on every disciplined run the daily PnL less 1R for each open trade stays above the stop less k R, across day rolls, and the trade limit is never passed |
| `Guardrails.DailyLossIsBounded` | internal/scanner/guardrails.go:92-190 | hence the daily PnL stays above the stop less k R in every reachable state |
| `Guardrails.BoundIsSharp` | internal/scanner/guardrails.go:92-190 | for every stop and every k, with limits that leave room for enough trades, a disciplined day comes as close to that bound as one likes |
| `Regime.Detector.constructor` | internal/funding/regime.go:60-65 | no samples and an empty history |
| `Regime.Detector.RecordRate` | internal/funding/regime.go:68-82 | the window is exactly the last LookbackPeriods recorded rates |
| `Regime.Detector.DetectRegime` | internal/funding/regime.go:85-129 | the regime of the last rates of the whole history, with the streak taking precedence |
| `Regime.Detector.PositionScaleFactor` | internal/funding/regime.go:134-151 | the factor of that regime |
| `Regime.Detector.ShouldExitAll` | internal/funding/regime.go:155-162 | exactly when that regime is persistent and the configuration says so |
| `Regime.NegativesCount` | internal/funding/regime.go:109-114 | the loop's counter is the number of positions with a negative rate |
| `Regime.RegimeMeaning` | internal/funding/regime.go:85-129 | which of the regimes holds: neutral below three samples, then the streak, then by counting, without division |
| `Regime.FactorMeaning` | internal/funding/regime.go:134-151 | the factor of each regime: 1, three quarters, the configured percentage, or nothing |
| `Regime.RegimeMonotone` | internal/funding/regime.go:85-129 | lowering any recorded rates never makes the regime less severe |
| `Regime.ScaleAntitoneExactly` | internal/funding/regime.go:134-151 | the factor falls with severity if and only if ReducePositionPct is at most 75, and not negative when persistent regimes exit |
| `Regime.ScaleMonotone` | internal/funding/regime.go:134-151 | hence lowering recorded rates never raises the position scale |
| `Allocator.Engine.constructor` | internal/allocator/engine.go:33-39 | initial capital as equity and peak, nothing allocated |
| `Allocator.Engine.Approve` | internal/allocator/engine.go:43-133 | the verdict and the whole new state, check by check |
| `Allocator.Engine.ReleaseNotional` | internal/allocator/engine.go:136-153 | releases from the right side, not below zero |
| `Allocator.Engine.UpdateEquity` | internal/allocator/engine.go:157-165 | equity, drawdown and the running peak |
| `Allocator.CashReserveNeverRejects` | internal/allocator/engine.go:107-113 | for every valid configuration, state and intent the cash-reserve check rejects nothing |
| `Allocator.CapMeaning` | internal/allocator/engine.go:58-98 | a cap is its percentage of the equity, or of the initial capital without one, and of that a tenth less for each point of drawdown, down to a quarter, without division |
| `Allocator.PerLegMeaning` | internal/allocator/engine.go:49-56 | two legs count for half their total, any other number for all of it |
| `Allocator.VerdictExactly` | internal/allocator/engine.go:43-133 | each verdict holds if and only if its check is the first to fail |
| `Allocator.ReleaseUndoesApproval` | internal/allocator/engine.go:117-153 | an approval books its notional on its own side, and releasing the same restores the state |
| `Allocator.ReleaseClamps` | internal/allocator/engine.go:136-153 | a release takes from its own side alone, and not below zero |
| `Allocator.CombinedRedundantForFunding` | internal/allocator/engine.go:100-105 | the combined cap rejects no funding intent that passed its own cap if and only if basis leaves funding its whole cap |
| `Allocator.CombinedRedundantForBasis` | internal/allocator/engine.go:100-105 | the same for basis |
| `Allocator.AlwaysWithinCaps` | internal/allocator/engine.go:43-153 | in every state of a run whose deployable capital never shrinks each side is within its own cap |
| `Allocator.OnlyOwnCapRejects` | internal/allocator/config.go:113-121 | so under a validated configuration only the strategy's own cap rejects a known strategy |
| `Allocator.ShrinkingCapitalCounterexample` | internal/allocator/engine.go:100-105 | after the capital has halved the combined cap rejects an intent within its own cap |
| `RiskManager.SlBand` | internal/scanner/risk_manager.go:218-224 | the stop distance is positive, within its band and below the entry price |
| `RiskManager.StopPlacement` | internal/scanner/risk_manager.go:194-225 | the stop goes 0.1% beyond a usable structure level, else at the volatility distance, moved into the band |
| `RiskManager.SizeWithinLimits` | internal/scanner/risk_manager.go:127-149 | risk = quantity x stop distance, position = quantity x entry, and budget, leverage and the 3% cap all hold |
| `RiskManager.SizeIsLargest` | internal/scanner/risk_manager.go:127-149 | no larger quantity meets the three limits |
| `RiskManager.LargestPosition` | internal/scanner/risk_manager.go:126-157 | no position within the score's share of the risk, the hard cap and the leverage is larger than the one produced |
| `RiskManager.BudgetExactly` | internal/scanner/risk_manager.go:127-131 | the budget is 20, 18, 16, 13 or 10 twentieths, by the score, of the configured percentage of the balance |
| `RiskManager.FailsExactly` | internal/scanner/risk_manager.go:116-121 | which error is returned for a price or a balance that is not positive |
| `RiskManager.ProducedExactly` | internal/scanner/risk_manager.go:126-157 | for a positive price and balance, parameters are produced if and only if some position that every limit allows reaches the minimum size |
| `RiskManager.SizeMonotone` | internal/scanner/risk_manager.go:127-149 | a larger budget never means a smaller position |
| `RiskManager.ConfidenceMonotone` | internal/scanner/risk_manager.go:228-241 | the multiplier grows with the score, from 0.5 to 1 |
| `RiskManager.ParamsAreSound` | internal/scanner/risk_manager.go:106-191 | whenever parameters are produced, size, risk and stop respect every limit, the stop is on the losing side, and the two percentages mean what they say |
| `RiskManager.TargetsOnProfitableSide` | internal/scanner/risk_manager.go:160-173 | each target is its multiple of the stop away from entry, on the profitable side exactly when the multiple is positive |
| `RiskManager.GrowsWithConfluence` | internal/scanner/risk_manager.go:106-191 | a higher score never fails where a lower one succeeded, and never means less risk or a smaller position, with the same stop |
| `TrackerSpec.PeakStep` | internal/scanner/tracker.go:313-316 | the running peak is the largest equity so far, the start included |
| `TrackerSpec.DrawdownStep` | internal/scanner/tracker.go:317-320 | the running drawdown is the largest fall from any earlier point of the curve to any later one |
| `TrackerSpec.WinStep` | internal/scanner/tracker.go:322-326 | a win ends the losing run and keeps the longest |
| `TrackerSpec.LossStep` | internal/scanner/tracker.go:327-335 | a loss or break-even extends it, and the longest of all contiguous runs is kept |
| `TrackerSpec.TotalIsProfitLessLoss` | internal/scanner/tracker.go:322-330 | total PnL is gross profit less gross loss |
| `TrackerSpec.TableStep` | internal/scanner/tracker.go:337-361 | booking a result updates exactly the row of its key |
| `TrackerSpec.TableAddsUp` | internal/scanner/tracker.go:337-361 | the rows of a table add up to everything that was booked |
| `TrackerSpec.SymbolsAccountForEverything` | internal/scanner/tracker.go:351-361 | trades and PnL by symbol add up to the totals |
| `TrackerSpec.CountsMeaning` | internal/scanner/tracker.go:366-379 | trades and wins by counting, the win rate in percent of them, total and average PnL, without division |
| `TrackerSpec.AveragesAre` | internal/scanner/tracker.go:380-385 | average win and loss over the trades that won and the others, without division |
| `TrackerSpec.RatiosAre` | internal/scanner/tracker.go:387-399 | profit factor and average R-multiple, without division |
| `TrackerSpec.RowsAre` | internal/scanner/tracker.go:337-361 | each row counts the bookings under its key and the winning ones, with its win rate and, by factor, its average |
| `TrackerSpec.SignalsAreBooked` | internal/scanner/tracker.go:337-349 | every signal of every trade is booked once, with the trade's PnL, in order |
| `TrackerSpec.SharpeMeaning` | internal/scanner/tracker.go:401-413 | without roots: the squared estimate times the squared deviations is 252 (n - 1) times the squared mean, with the sign of the mean; 0 for fewer than two trades or equal results |
| `TrackerSpec.NoTrades` | internal/scanner/tracker.go:288-297 | the statistics of no trades are all zero and empty, and no others are |
| `Tracker.RecomputeStats` | internal/scanner/tracker.go:288-429 | the single pass computes the declarative statistics: largest drawdown, longest losing run, totals, averages, ratios, Sharpe estimate, tables and distinct qualifying days |
| `Tracker.BookSignals` | internal/scanner/tracker.go:337-349 | the nested loop books one result for each signal |
| `Tracker.RateAll` | internal/scanner/tracker.go:422-426 | every row by symbol gets its win rate |
| `Tracker.AverageAll` | internal/scanner/tracker.go:416-421 | every row by factor gets its win rate and its average PnL |
| `Tracker.Sharpe` | internal/scanner/tracker.go:401-413 | the mean over the sample deviation, times the root of 252; 0 for fewer than two trades or no deviation |
| `Tracker.Finish` | internal/scanner/tracker.go:376-399 | averages, expectancy, profit factor and the average R-multiple, whose loop equals expectancy over the average loss |
| `Tracker.OutcomeTracker.constructor` | internal/scanner/tracker.go:101-122 | the history is what was read back, uncut, with its statistics, and the bound is positive |
| `Tracker.OutcomeTracker.RegisterTrade` | internal/scanner/tracker.go:125-140 | the trade is open and nothing else changes |
| `Tracker.OutcomeTracker.RecordOutcome` | internal/scanner/tracker.go:143-203 | an unknown trade changes nothing; otherwise it is closed with the record below, the history is the last maxHistory trades ever closed, and the statistics are those of the history |
| `Tracker.CloseTrade` | internal/scanner/tracker.go:153-186 | the record of a closed trade: outcome, exit and fees as given; PnL and fees relate to the position as the gain to the entry; the PnL in percent of the position and the slippage in basis points of the expected entry where those are not zero; it counts for the day exactly when the PnL is at least a hundredth of the position |
| `Tracker.RecordMeaning` | internal/scanner/tracker.go:153-182 | the trade as it was opened and closed; a long earns as the price rises, a short as it falls, in proportion to the entry and less fees; it counts for the day exactly at one percent or more, or for any result on an empty position; nothing without an entry price |
| `Tracker.LevelsInPrices` | internal/scanner/tracker.go:245-271 | a long is stopped at or below its stop and else at its target at or above it; a short the other way round |
| `Tracker.OutcomeMatchesPnl` | internal/scanner/tracker.go:158-186 | a stop is reached exactly when closing there earns at most what it earns at the stop, and a target exactly when it earns more than that and at least what it earns at the target; a stop on the losing side loses, and a target on the winning side wins, before fees |
| `Tracker.OutcomeTracker.CheckPriceForOutcome` | internal/scanner/tracker.go:207-242 | exactly the symbol's open trades whose gain at that price is not strictly between those at stop and target, so the two methods agree |
| `Tracker.OutcomeTracker.DetermineOutcome` | internal/scanner/tracker.go:245-271 | a stop exactly when the gain at the price is at most the gain at the stop, a target exactly when it is above that and at least the gain at the target, and manual exactly for an unknown trade or a gain strictly between the two |
| `Indicators.Sma` | internal/scanner/indicators.go:24-40 | the running sum gives the exact mean of the last min(i + 1, period) values at every position |
| `Indicators.WindowGrows` | internal/scanner/indicators.go:30-37 | how the sum of that window changes by one position |
| `Indicators.Ema` | internal/scanner/indicators.go:9-20 | every value is the blend of the close and the value before, and stays between the minimum and maximum of its prefix |
| `Indicators.BetweenBlend` | internal/scanner/indicators.go:16-18 | a blend stays within the bounds of the prefix |
| `Indicators.Rsi` | internal/scanner/indicators.go:47-99 | every value is the index of the smoothed gains and losses up to it, hence in [0, 100], and 50 before the first full period |
| `Indicators.StrengthIsShare` | internal/scanner/indicators.go:83-97 | the index is the gains' share of all movement, in percent |
| `Indicators.RsiMirrors` | internal/scanner/indicators.go:47-99 | the index of the mirrored closes is the complement to 100, except that both are 100 when nothing has moved |
| `Indicators.AverageNeverForgets` | internal/scanner/indicators.go:66-92 | with a period of at least two, the smoothed gain is positive exactly if some close up to there has risen |
| `Indicators.Poc` | internal/scanner/indicators.go:302-354 | the middle of the first bin with the most volume, the volume of a bin being the sum of the candles' shares |
| `Indicators.PointOfControlMeaning` | internal/scanner/indicators.go:343-354 | there is one point of control at most: no bin has more volume and every earlier one has less |
| `Indicators.AddCandle` | internal/scanner/indicators.go:326-341 | every bin the candle covers gains an equal share of its volume, and no other bin changes |
| `Indicators.BinContains` | internal/scanner/indicators.go:328-329 | a price lies between the edges of the bin it is assigned to |
| `Indicators.ReachesBinExactly` | internal/scanner/indicators.go:326-341 | a candle reaches a bin exactly when its low is below the top of the range |
| `Indicators.CandleIsShared` | internal/scanner/indicators.go:336-340 | a candle's shares add up to its volume, or to nothing if it covers no bin |
| `Indicators.VolumeIsKept` | internal/scanner/indicators.go:302-341 | the histogram holds exactly the volume of the candles whose low is below the range maximum |
| `Indicators.FindSwingPoints` | internal/scanner/indicators.go:220-259 | exactly the candles strictly above, or below, all neighbours within the lookback, in order, a high before a low at the same one |
| `Indicators.WindowExtremeIsSwing` | internal/scanner/indicators.go:228-240 | a candle with a full lookback on both sides is a swing exactly if it exceeds each of its neighbours |
| `Indicators.SwingsAreApart` | internal/scanner/indicators.go:220-259 | two swing highs, or two swing lows, are more than the lookback apart |
| `Indicators.PointMeaning` | internal/scanner/indicators.go:241-256 | a point has the price and time of its candle, beyond every neighbour's |
| `Indicators.BeforeIsOrder` | internal/scanner/indicators.go:241-256 | the points are in strict order of position, a high before a low |
| `Indicators.IsExtreme` | internal/scanner/indicators.go:228-240 | the inner loop decides both |

## Left out

- IEEE rounding, overflow and NaN, and the 16-digit rounding of `decimal.Div`: numbers are exact reals.
- `math.Sqrt` and `math.Log` are function parameters: any non-negative root, and any real function.
- Time is in milliseconds, UTC days are whole multiples of 86400000, and a method takes every clock reading that the source decides something by; readings for mere timestamps and latencies are left out.
- Logging, formatted text, halt reasons, alert severities, identifiers other than client order ids, what events carry besides kind, leg, symbol and action, and JSON.
- Redis, HTTP, WebSocket, Postgres, YAML, environment variables, signing, goroutines, tickers and mutexes.
- Pointers stored in maps (tracked positions, breaker states, trade records) are values here, so aliasing of them is not captured; the order in which Go ranges over a map is arbitrary here too, and results that list keys are sets.
- Loops with long bodies are split into helper methods, one per iteration or phase; the steps and their order are the source's.
- Executor.Executor.Summarise: latency and slippage of the fill summary are not modelled.
- The executor's fill reconciliation, periodic reconciliation and `PlaceStopLoss`: the first two only log, the last is one call.
- RiskDaemon.Daemon.RecordPositionSnapshot: sides are "Buy" or "Sell" as its field is documented; the adapter that fills it reports "LONG" or "SHORT", which the model would treat as not "Sell", as the code does.
- ChallengeDaemon.Daemon.PositionsWithExpiredStopLoss: the result is a set, the order is not modelled.
- The gate's safety trade, suggested paired stop prices, stop-width check, trading-day minimum and snapshot getters: single comparisons or reads.
- Allocator.Engine.Approve: which markers an upper-cased strategy name contains is given, not computed from text.
- RiskManager.ParamsAreSound: for 0 < minimum stop <= maximum stop < 100%; without a positive maximum the source divides by a stop distance of zero or less.
- Tracker.RecomputeStats: the constant number of trading days needed is not modelled.
- Tracker.OutcomeTracker.constructor: the history file is the sequence of records it holds, or none; a file that does not parse is not modelled.
- Basis.Tracker.constructor: a negative window size or, in Regime and Indicators.FindSwingPoints, a negative lookback makes the Go slice expressions panic; they are natural numbers here.
- VWAP, ATR, Fibonacci levels, trend and divergence detection, the scanner's detectors, the strategy selector, the arbitrage and funding engines, the margin monitor, the regime summary and the ledger: threshold lists or further members of kinds already here.
- Guardrails: the performance-health check and the status formatter, one comparison each.
