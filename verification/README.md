# Verified models of the trading platform's core computations

This project models the parts of the platform where a mistake is costly and hard to see by reading one
function: the backtest engine that decides whether a strategy is worth running, the statistics and calibration
code behind the probabilities shown to subscribers, and three small state machines (the stack watchdog, the mail
submission session and the false-discovery step of the calibration protocol). Each model is written in the form
of the code it describes: objects whose methods update fields are classes, loops are loops, pure code is
functions. Each imperative method is proved equal to a specification on plain values, and the properties are
proved about that specification, for every input and every run.

`dafny verify dfyconfig.toml` checks everything.

## How the project is organised

| module | what it covers |
|---|---|
| `Options`, `Counting`, `Durations`, `BacktestTypes`, `Ledger`, `TradeTracker` | positions, stops, targets, costs and the account; `Ledger` is the specification, `TradeTracker` the class |
| `Engine`, `Runner` | the event loop, the entry gates and position sizing; `Engine` is the specification, `Runner` the class |
| `RunProperties`, `RunAccounting` | theorems over every reachable state of a run |
| `TradeRules` | the rules of a trade in plain prices, longs and shorts apart, proved of every candle and every run |
| `HigherTimeframes` | the incremental index into higher-timeframe candles, and the history store |
| `Metrics` | the one-pass performance report |
| `Reals`, `Statistics`, `ZScores`, `LeadLag` | correlation, z-scores, shock detection, lead-lag search |
| `RankStatistic`, `LogisticFit`, `Interpolation`, `Registry` | AUC, the gradient fit, isotonic interpolation, the model registry |
| `Watchdog` | crash-loop window, remediation cooldown and breaker |
| `Submission` | the SMTP submission session |
| `FalseDiscovery` | the Benjamini-Hochberg loop and the recommendations built on it |

## How to read the model

- Decimal and floating-point numbers are reals: no rounding, no NaN, no infinity. A NaN result is `None`.
- `sqrt`, `exp` and `log` are parameters constrained by their laws (`IsSqrt`, `IsExp`, `IsLog`).
- Instants and durations are integer nanoseconds; instant 0 is the zero time.
- A backtest bar carries everything its surroundings contribute: the candle, whether the context is cancelled,
  whether the feature engine is ready, what the strategy would answer, the regime's trade threshold and the drawn
  identifier. The theorems quantify over all bar sequences, so the strategy may answer anything at any bar,
  including directions the event loop does not know.
- Long and short positions share one specification in signed prices (`Sign`, `Gain`, `Risk`); the two branches
  the code writes out by hand are proved equal to it.
- A watchdog tick carries the results of its probes and whether each command would succeed; one instant serves
  the whole tick. A submission line carries its text and how the outside operation it sets off would end (the TLS
  handshake after a STARTTLS, the spooling of a message it completes); the command parser is an arbitrary function
  from text to command.

## Where the code departs from its own description

For each of these there is a theorem giving the exact condition under which the code meets its description, and a
concrete input on which it does not.

- Break-even assigns the entry price without looking at the current stop, so on the bar where it fires it can pull
  a trailed stop back (`StopRetreatsExactlyWhen`, `StopRetreatWitness`).
- An end-of-data close charges overnight swap but does not record it (`CostsReconcileExactlyWhen`,
  `UnrecordedSwapWitness`).
- The metrics' equity curve starts at zero rather than at the initial balance, so the reported drawdown percentage
  misses a fall below the start that no other fall matches. The exact condition has a second case for accounts that
  sink to zero or below without ever being back at their start (`DrawdownExact`, `ReportedExactlyWhen`,
  `SolventReportExactlyWhen`, `FirstLossUnreported`, `RuinWitness`).
- The comment on `buildAllCandlesMap` promises the most recent closed candle on every bar; the code returns one
  only on bars where a further candle has closed (`HandedIsNaiveExactlyWhen`, `SecondBarWitness`).
- Lead-lag analysis promises to compare all lags; for series of different length it skips a whole side of them
  (`EveryLagAlignsExactlyWhen`, `LagBounded`, `SkippedSideWitness`).
- The published AUC is taken after clamping scores to [0, 100], which merges ranks beyond the ends
  (`NormalizedAuc`, `ClampMergesRanks`).
- When an isotonic file wins the registry, the live path keeps serving the last logistic record
  (`SameSourceExactlyWhen`, `StaleWitness`).
- The loader's monotonicity gate does not look at the sign of a logistic slope
  (`ResearchPathMonotoneExactlyWhen`, `FallingModelWitness`).
- The Benjamini-Hochberg loop is not step-up (`AgreesExactlyWhen`, `NotStepUpWitness`).
- The relay's size check lets a message exceed ten megabytes by one byte (`MessageTransparent`, `OverrunWitness`),
  and a recipient beyond the 25th is answered 452 but kept and queued, although the relay's documentation promises a
  cap (`RecipientCapExactlyWhen`, `TwentySixWitness`).
- The finding of an engine that lost its database asks for a restart, but the dispatcher only alerts on it
  (`UnservedExactlyWhen`, `LostPoolDetectedExactlyWhen`, `OnlyActionableActs`, `LostPoolIgnoredWitness`).
- The watchdog's breaker is described as counting restarts without recovery, but nothing ever reports a recovery: it
  counts restarts since start-up, and a service that has used them up is never restarted again
  (`RemediedExactlyWhen`, `NeverRestartedAgain`, `RelapseWitness`).

## Behaviour the source does not describe

Again with the exact condition and a concrete input.

- A bar that passes every gate and is answered with a direction the event loop does not know (ERROR, BUY_CANDIDATE,
  SELL_CANDIDATE) is processed but appears in no outcome counter (`EveryBarCountedExactlyWhen`,
  `UncountedBarWitness`).
- Interpolation at a repeated right-most knot answers with the last of the knots; everywhere else the first of equal
  knots wins (`FirstKnotExactlyWhen`, `LastKnotWitness`).
- A second MAIL replaces the sender but keeps the recipients of the first (`OwnRecipientsExactlyWhen`,
  `CarriedOverWitness`).
- An AUTH PLAIN with a wrong password on an already authenticated session is answered 235 and changes nothing
  (`AuthAnswered`, `SecondGuessWitness`).

## Model

| member | source | states |
|---|---|---|
| TradeTracker.OpenPosition.constructor | realtime/internal/backtest/runner.go:315-331 | a new position starts with its stop at the original stop and no flag set |
| TradeTracker.Tracker.constructor | realtime/internal/backtest/trade_tracker.go:29-36 | a new tracker holds the initial balance, nothing open, recovery off |
| TradeTracker.Tracker.Open | realtime/internal/backtest/trade_tracker.go:39-41 | the position joins the open ones; nothing else changes |
| TradeTracker.Tracker.DailyLoss | realtime/internal/backtest/trade_tracker.go:73-78 | the day's profit as a percentage of the initial balance, 0 when that is 0 |
| TradeTracker.Tracker.CheckDayRollover | realtime/internal/backtest/trade_tracker.go:81-89 | a new day resets the day's profit and nothing else |
| TradeTracker.Tracker.Probe | realtime/internal/backtest/trade_tracker.go:134-210 | both hand-written branches find the level and reason of the one signed rule, in both stop/target modes |
| TradeTracker.Tracker.CheckPosition | realtime/internal/backtest/trade_tracker.go:129-279 | a trade comes back exactly when a level is touched, with the prices, costs and multiples of the ledger; otherwise the position is unchanged |
| TradeTracker.Tracker.Settle | realtime/internal/backtest/trade_tracker.go:212-278 | profit, itemised costs and R-multiple of a close, long and short alike; swap is recorded except at end of data |
| TradeTracker.Tracker.ApplyTradeManagement | realtime/internal/backtest/trade_tracker.go:282-321 | break-even then trailing, both directions, equal the one signed rule |
| TradeTracker.Tracker.UpdatePositions | realtime/internal/backtest/trade_tracker.go:94-126 | every open position is closed or managed exactly once, in order; balance, day profit, loss streak and recovery follow the exits; the returned list is those exits |
| TradeTracker.Tracker.CloseAllPositions | realtime/internal/backtest/trade_tracker.go:324-396 | every open position is closed once at the close; the balance moves by their profit, the risk counters do not |
| Ledger.AbsorbAppend | realtime/internal/backtest/trade_tracker.go:107-121 | booking exits one by one leaves the accounts the closed-form totals describe |
| Runner.BacktestRunner.ParityGate | realtime/internal/backtest/runner.go:236-268 | a directional read passes exactly if it is out of cooldown, at or above the trade bar, past its entry gate and not a loss candidate |
| Runner.BacktestRunner.PositionSize | realtime/internal/backtest/runner.go:280-306 | size is risk amount over risk per lot, clamped to [0.01, 10] |
| Runner.BacktestRunner.DoOpenTrade | realtime/internal/backtest/runner.go:271-340 | a usable plan opens one fresh position and starts its cooldown; otherwise nothing happens |
| Runner.BacktestRunner.Gate | realtime/internal/backtest/runner.go:162-190 | the entry checks in order: daily loss limit, position limit, promotion |
| Runner.BacktestRunner.DoDecide | realtime/internal/backtest/runner.go:160-208 | one decision: at most one outcome counter and at most one position, as the value-level decision says |
| Runner.BacktestRunner.DoStep | realtime/internal/backtest/runner.go:147-208 | one bar of the loop is one value-level step, including bars that are not ready or before the start |
| Runner.BacktestRunner.FindStart | realtime/internal/backtest/runner.go:115-122 | the first bar at or after the configured start, or bar 0 if there is none |
| Runner.BacktestRunner.Run | realtime/internal/backtest/runner.go:50-223 | the whole run equals the fold of steps over all bars, closed out and summarised; a cancelled run stops at the first cancelled bar and reports no trades |
| TradeRules.CandleDecides | realtime/internal/backtest/trade_tracker.go:94-210 | one candle over any book: exactly the positions whose stop or first target it reaches go out, by the level that wins in the mode, with the plain-price money; the others stay with their stop moved; nothing else enters |
| TradeRules.StopWins | realtime/internal/backtest/trade_tracker.go:134-210 | conservatively a candle that reaches a non-zero stop closes the position there with reason SL, whatever the other extreme did, long and short |
| TradeRules.TargetWins | realtime/internal/backtest/trade_tracker.go:134-210 | in the other mode a candle that reaches the first target closes there with reason TP1, whatever the stop |
| TradeRules.FillBooks | realtime/internal/backtest/trade_tracker.go:212-278 | every field of a recorded trade in plain prices: move times size times contract less spread, commission, slippage and one swap charge per whole day held; the R-multiple; the identity |
| TradeRules.MovedAgrees | realtime/internal/backtest/trade_tracker.go:282-321 | where the stop of an untouched position goes, in plain prices, long and short apart |
| TradeRules.RunExitsDecided | realtime/internal/backtest/trade_tracker.go:94-279 | every loop exit of every run is decided and booked so by the candle of its bar |
| TradeRules.RunCandlesDecide | realtime/internal/backtest/runner.go:151-153 | every ready bar of every run decides the book it finds so |
| TradeRules.FinalExitsBooked | realtime/internal/backtest/trade_tracker.go:324-396 | what is open at the end goes out once each, at the last close, booked the same way |
| TradeRules.OpensExactlyWhen | realtime/internal/backtest/runner.go:162-198 | a position is opened if and only if the day's loss, the position count and, under parity, cooldown, trade bar, entry gate and loss flag allow it, for a buy or sell that names stop, first target and entry |
| TradeRules.CooldownStarted | realtime/internal/backtest/runner.go:333-337 | an opening starts the signal's minutes of cooldown; nothing else moves it |
| TradeRules.CountedAs | realtime/internal/backtest/runner.go:160-208 | which counter each decision adds to |
| RunProperties.DecideEffect | realtime/internal/backtest/runner.go:160-208 | a decision moves no money and closes nothing; it opens one position exactly when every gate passes, and adds one to one outcome counter exactly when a gate stops it or the loop knows the direction |
| RunProperties.Always | realtime/internal/backtest/runner.go:124-209 | whatever holds at the start and survives each bar holds in every reachable state |
| RunProperties.BalanceConserved | realtime/internal/backtest/trade_tracker.go:94-126 | in every reachable state balance = initial + profit of closed trades, and the recovery multiplier is 1 |
| RunProperties.ManageKeepsOrder | realtime/internal/backtest/trade_tracker.go:282-321 | management never loosens the stop below the original one, and only ratchets it once break-even is set |
| RunProperties.PositionsHealthy | realtime/internal/backtest/trade_tracker.go:94-210 | every open position and every exit of every run: sized from the balance at its own bar, stop in order, no target flag set, and the exit is the one its candle triggers |
| RunProperties.OpenedAsSignalled | realtime/internal/backtest/runner.go:271-331 | every position of every run, open or closed, has the direction, prices, targets and identifier of its own bar's signal, and the lots the budget buys at that stop distance, between 0.01 and 10 |
| RunProperties.RiskWithinBudget | realtime/internal/backtest/runner.go:280-306 | the loss at the original stop is within the risk budget if and only if the smallest lot is; for a stop away from the entry, if and only if the size was not raised to that lot |
| RunProperties.StopLossBounded | realtime/internal/backtest/trade_tracker.go:212-221 | a stop costs at most the original risk times size, wherever break-even and trailing moved it |
| RunProperties.StopLossWithinBudget | realtime/internal/backtest/trade_tracker.go:212-221 | in every run a stopped-out position whose smallest lot was affordable lost at most MaxRiskPerTrade of the balance at its opening |
| RunProperties.ExitsAndMultiples | realtime/internal/backtest/trade_tracker.go:134-250 | loop exits are stops or first targets only; a stop costs at most 1R, nothing after break-even; a well-placed first target gains; a position never closes on its opening bar |
| RunProperties.ManageKeepsBracket | realtime/internal/backtest/trade_tracker.go:282-321 | a well-formed candle that closes nothing leaves the stop short of the first target |
| RunProperties.OpenPositionsBracketed | realtime/internal/backtest/trade_tracker.go:94-126 | in every reachable state every well-placed open position has original stop <= stop < first target, mirrored for shorts |
| RunProperties.StopRetreatsExactlyWhen | realtime/internal/backtest/trade_tracker.go:287-299 | the stop moves back if and only if break-even fires with the stop already beyond entry and the trail does not restore it; break-even is then set, and a set one never moves back |
| RunProperties.StopRetreatWitness | realtime/internal/backtest/trade_tracker.go:94-126 | two candles that leave a position open and move its stop to 118 and back to 110 |
| RunProperties.CostsReconcileExactlyWhen | realtime/internal/backtest/trade_tracker.go:344-389 | recorded costs explain gross minus realized profit if and only if the close is not at end of data or no swap is due |
| RunProperties.UnrecordedSwapWitness | realtime/internal/backtest/trade_tracker.go:344-389 | one lot held for one day at rate 1 and closed at end of data: the recorded costs miss 1 |
| RunAccounting.CandleSplits | realtime/internal/backtest/trade_tracker.go:94-126 | a candle splits the open positions into survivors and exits, none lost or duplicated |
| RunAccounting.OpenedIsOpenPlusClosed | realtime/internal/backtest/trade_tracker.go:94-126 | in every reachable state the positions ever opened are the open ones plus the closed ones, with multiplicity |
| RunAccounting.OpeningsChronological | realtime/internal/backtest/runner.go:271-340 | openings happen on strictly increasing bars, so no position occurs twice |
| RunAccounting.LimitsAndCounters | realtime/internal/backtest/runner.go:151-209 | open positions never exceed the limit; no processed bar is counted twice; no opening without a counted signal |
| RunAccounting.CountersMissEscaped | realtime/internal/backtest/runner.go:160-208 | in every run the outcome counters miss exactly the bars that passed every gate and were answered with a direction the switch does not list |
| RunAccounting.EveryBarCountedExactlyWhen | realtime/internal/backtest/runner.go:160-208 | every processed bar is in exactly one outcome counter if and only if there was no such bar |
| RunAccounting.UncountedBarWitness | realtime/internal/backtest/runner.go:192-208 | one ready bar answered with ERROR: one bar processed, none counted |
| RunAccounting.SettleInStep | realtime/internal/backtest/trade_tracker.go:81-104 | at every entry decision the day counter equals the profit of the exits on that UTC day |
| RunAccounting.DailyLimitHolds | realtime/internal/backtest/runner.go:162-166 | in every run the day counter is the day's booked profit, and no position was opened on a bar where it was at or beyond the loss limit |
| RunAccounting.DailyLimitInMoney | realtime/internal/backtest/runner.go:162-166 | at every opening the day's booked loss was below the configured percentage of the initial balance, in money |
| RunAccounting.DayContains | realtime/internal/backtest/trade_tracker.go:81-83 | a day starts on a whole number of days and contains its instants |
| RunAccounting.CooldownHolds | realtime/internal/backtest/runner.go:242-244 | with production parity every entry waits out the cooldown of all earlier entries |
| RunAccounting.CloseAllConserves | realtime/internal/backtest/trade_tracker.go:324-396 | closing out keeps money and positions conserved and leaves nothing open |
| RunAccounting.EverythingCloses | realtime/internal/backtest/runner.go:211-219 | after a run nothing is open, the closed positions are exactly the opened ones, each closed once by stop, first target or end of data, and the balance is initial plus their profit |
| RunAccounting.ReportMatchesAccount | realtime/internal/backtest/runner.go:216-219 | the report's final balance, trade count and net profit, recomputed from the trades, agree with the tracker |
| HigherTimeframes.Lookup.Advance | realtime/internal/backtest/runner.go:413-429 | the index moves past every closed candle; a candle is returned exactly if it moved |
| HigherTimeframes.AdvanceAll | realtime/internal/backtest/runner.go:403-433 | each timeframe advances on its own and contributes its own answer |
| HigherTimeframes.IndexIsClosedCount | realtime/internal/backtest/runner.go:413-426 | over non-decreasing bar times the index equals the number of closed candles |
| HigherTimeframes.HandedIsNaiveExactlyWhen | realtime/internal/backtest/runner.go:401-430 | the answer is the from-scratch latest closed candle if and only if the closed count grew on this bar or is still zero |
| HigherTimeframes.SecondBarWitness | realtime/internal/backtest/runner.go:401-430 | one hourly candle and two bars after its close: the second bar is handed nothing |
| HigherTimeframes.HandedIsClosed | realtime/internal/backtest/runner.go:416-421 | no look-ahead: the start of every candle handed out plus its duration is not after the bar |
| HigherTimeframes.HandedIsLatest | realtime/internal/backtest/runner.go:413-429 | what is handed out is the latest candle whose duration is over, and it ended since the bar before; nothing is handed out exactly when none ended since |
| HigherTimeframes.ClosedCountIsSize | realtime/internal/backtest/runner.go:416-421 | the closed count is the number of candles whose duration is over, counted as a set |
| HigherTimeframes.HandedOnce | realtime/internal/backtest/runner.go:414-429 | candles are handed out in order and never twice |
| HigherTimeframes.Get | realtime/internal/backtest/runner.go:363-385 | the newest candles not after the current time, at most `limit`, oldest first |
| Metrics.ComputeMetrics | realtime/internal/backtest/metrics.go:10-127 | the single pass delivers every metric but the two ratios as defined on the trade list |
| Metrics.DrawdownIsWorstFall | realtime/internal/backtest/metrics.go:73-80 | the running drawdown is the largest fall between two points of the curve in time order, and is attained |
| Metrics.PeakIsHighest | realtime/internal/backtest/metrics.go:74-76 | the running peak is the highest point of the curve, and is attained |
| Metrics.CurrentRunIsSuffix | realtime/internal/backtest/metrics.go:49-62 | the streak counter is the longest uniform suffix |
| Metrics.LongestRunIsLongest | realtime/internal/backtest/metrics.go:49-62 | the reported streaks are the longest uniform stretches anywhere |
| Metrics.WinsAndLossesPartition | realtime/internal/backtest/metrics.go:45-63 | wins plus losses is all trades, gross profit minus gross loss is the net profit |
| Metrics.AveragesRecoverProfit | realtime/internal/backtest/metrics.go:91-122 | net profit = wins x average win + losses x average loss = trades x expectancy; win rate within [0, 100] |
| Metrics.RatiosRecover | realtime/internal/backtest/metrics.go:91-127 | win rate, total return, profit factor and average holding recover what they are ratios of |
| Metrics.CountIsSize | realtime/internal/backtest/metrics.go:45-56 | wins are the trades with a profit, losses all others, counted as sets |
| Metrics.BuyCountIsSize | realtime/internal/backtest/metrics.go:37-41 | the buy counter is the number of bought trades |
| Metrics.ExtremesAreAttained | realtime/internal/backtest/metrics.go:65-71 | best and worst trade bound all trades and are attained, or zero |
| Metrics.DrawdownFromTheStart | realtime/internal/backtest/metrics.go:23-25 | the drawdown from the initial balance is the recorded one or the fall below the start, whichever is larger |
| Metrics.DrawdownExact | realtime/internal/backtest/metrics.go:73-80 | the recorded absolute drawdown is the true one if and only if two points of the curve, in time order, lie at least as far apart as the account ever sank below its start |
| Metrics.ReportedExactlyWhen | realtime/internal/backtest/metrics.go:73-117 | the reported percentage is the true one if and only if the curve falls as far as the account sank below its start (when it was back at its start after some trade), or the largest fall is the same share of the best balance as that loss is of the start (when it never was) |
| Metrics.SolventReportExactlyWhen | realtime/internal/backtest/metrics.go:73-117 | for an account that never reaches zero, if and only if the curve falls as far as the account ever sank below its start |
| Metrics.RuinWitness | realtime/internal/backtest/metrics.go:73-117 | from 100 two losses of 50: 100% is reported and true although the curve never falls by 100 |
| Metrics.FirstLossUnreported | realtime/internal/backtest/metrics.go:73-117 | one losing trade of 100 from 10000: 0 and 0% recorded, 100 and 1% true |
| Statistics.CauchySchwarz | realtime/internal/crossmarket/detectors.go:236-244 | the accumulated num^2 <= denomX * denomY at every point of the loop, for any two centres |
| Statistics.PearsonCorrelation | realtime/internal/crossmarket/detectors.go:223-251 | the correlation by its definition; undefined for unequal, short or constant series; in [-1, 1] otherwise |
| Statistics.CorrelationBounded | realtime/internal/crossmarket/detectors.go:223-251 | every defined correlation lies in [-1, 1] |
| Statistics.DefinedExactlyWhen | realtime/internal/crossmarket/detectors.go:223-251 | a correlation is defined if and only if the series have one length of at least two and neither is flat |
| Statistics.CorrelationAffine | realtime/internal/crossmarket/detectors.go:223-251 | rescaling or shifting a series changes at most the sign of the correlation, and never whether it is defined |
| Statistics.CoefficientInSums | realtime/internal/crossmarket/detectors.go:223-251 | a defined coefficient times the root of the two summed squares is the summed product of deviations |
| Statistics.CorrelationSymmetric | realtime/internal/crossmarket/detectors.go:223-251 | the two series play the same part |
| Statistics.SelfCorrelation | realtime/internal/crossmarket/detectors.go:223-251 | a series that is not flat correlates with itself at exactly 1 |
| Statistics.PerfectExactlyWhenAffine | realtime/internal/crossmarket/detectors.go:223-251 | the coefficient is 1 if and only if one series is a rising straight-line image of the other |
| ZScores.Samuelson | realtime/internal/crossmarket/advanced.go:101-124 | (latest - mean)^2 <= (n - 1) * variance for every sample |
| ZScores.ScoreBounded | realtime/internal/crossmarket/advanced.go:116-124 | the square of a z-score is at most the sample size minus one |
| ZScores.ScoreInDeviations | realtime/internal/crossmarket/advanced.go:101-124 | a z-score times the deviation is the latest value less the mean; it is undefined exactly for a flat sample |
| ZScores.ZScore | realtime/internal/crossmarket/advanced.go:267-289 | the latest value's z-score in its window, 0 when undefined, within Samuelson's bound |
| ZScores.DetectBTCShock | realtime/internal/crossmarket/advanced.go:92-170 | state exactly by the size of the z-score (above 4, 3, 2), score, direction and confidence of a shock reading, with the bounded z-score of the last window |
| ZScores.SpikeAttains | realtime/internal/crossmarket/advanced.go:101-124 | a flat series with one spike attains Samuelson's bound |
| ZScores.SeverityReachable | realtime/internal/crossmarket/advanced.go:92-152 | a severity level (1 elevated, 2 shock, 3 extreme) is reachable by some series if and only if the lookback is at least (level + 1)^2 + 2, that is 6, 11 and 18 |
| ZScores.SeverityNeeds | realtime/internal/crossmarket/advanced.go:135-152 | no series with a smaller lookback reaches the level |
| LeadLag.LeadLagDetector.constructor | realtime/internal/crossmarket/leadlag.go:14-19 | a non-positive lag range becomes 10 |
| LeadLag.LeadLagDetector.Analyze | realtime/internal/crossmarket/leadlag.go:32-97 | too short series leave everything unset; otherwise the strongest defined correlation over all lags, earliest lag on ties; coefficient in [-1, 1], confidence in [0, 0.8] and positive exactly above 0.3 |
| LeadLag.LeadLagDetector.Search | realtime/internal/crossmarket/leadlag.go:43-79 | the loop's best triple is the strongest correlation of the whole lag range |
| LeadLag.LagBounded | realtime/internal/crossmarket/leadlag.go:49-66 | a lag has a correlation if and only if it is short enough, on the side where the slices are equally long, and leaves two slices of at least two values that are not flat; it is then in [-1, 1] |
| LeadLag.SlicesAlign | realtime/internal/crossmarket/leadlag.go:49-62 | the two slices of a lag are equally long if and only if the longer series is the one cut to length on that side of zero |
| LeadLag.EveryLagAlignsExactlyWhen | realtime/internal/crossmarket/leadlag.go:47-66 | every short enough lag compares slices of one length if and only if the two series are equally long |
| LeadLag.SkippedSideWitness | realtime/internal/crossmarket/leadlag.go:49-66 | 21 gold returns and 20 asset returns moving as one: no lag from zero up is compared, lag -1 is |
| LeadLag.OneMoreLag | realtime/internal/crossmarket/leadlag.go:64-79 | the next lag replaces the best one if and only if its correlation is strictly stronger |
| LeadLag.StrongestUnique | realtime/internal/crossmarket/leadlag.go:68-78 | coefficient and lag are determined by the data |
| LeadLag.PairedAtLag | realtime/internal/crossmarket/leadlag.go:49-62 | which values meet at a lag, index by index |
| LeadLag.DelayFound | realtime/internal/crossmarket/leadlag.go:49-62 | gold that repeats the asset k bars later correlates at exactly 1 at lag k |
| LeadLag.LeadFound | realtime/internal/crossmarket/leadlag.go:55-62 | an asset that repeats gold k bars later does so at lag -k |
| LeadLag.PerfectLagWins | realtime/internal/crossmarket/leadlag.go:64-79 | a perfect lag in the range makes the answer's strength 1 |
| RankStatistic.Auc | realtime/internal/calibration/live_calibrator.go:324-347 | the share of positive-negative pairs in the right order, ties half; in [0, 1]; one half with one class |
| RankStatistic.AucInUnit | realtime/internal/calibration/live_calibrator.go:324-347 | the AUC lies in [0, 1] |
| RankStatistic.OneClassHalf | realtime/internal/calibration/live_calibrator.go:333-335 | with labels all above one half, or none, the AUC is one half |
| RankStatistic.PerfectExactlyWhenSeparated | realtime/internal/calibration/live_calibrator.go:336-346 | the AUC is 1 if and only if every positive scores above every negative |
| RankStatistic.FlippedLabels | realtime/internal/calibration/live_calibrator.go:324-347 | AUC with swapped labels is one minus the AUC, also with one class |
| RankStatistic.AucRankInvariant | realtime/internal/calibration/live_calibrator.go:320-347 | a strictly increasing transform of the scores leaves the AUC unchanged |
| RankStatistic.NormalizedAuc | realtime/internal/calibration/live_calibrator.go:152-165 | the published AUC is that of the raw scores if and only if, among the win-loss pairs the clamp merges, the win had the higher score as often as the lower one |
| RankStatistic.ComparisonKeptExactlyWhen | realtime/internal/calibration/live_calibrator.go:155-164 | the clamp keeps a comparison if and only if the scores are equal or not both beyond the same end |
| RankStatistic.PairsClamped | realtime/internal/calibration/live_calibrator.go:152-165 | the clamp costs half a point per merged win and gains half a point per merged loss |
| RankStatistic.DesignedScaleKept | realtime/internal/calibration/live_calibrator.go:152-165 | for scores in [0, 100] the published AUC is that of the raw scores |
| RankStatistic.ClampMergesRanks | realtime/internal/calibration/live_calibrator.go:155-165 | scores 200 and 150: raw AUC 1, published AUC one half |
| LogisticFit.FitLogisticCalibration | realtime/internal/calibration/live_calibrator.go:226-318 | the fit is the validated outcome of one hundred gradient iterations from the heuristic start; empty or mismatched data is refused |
| LogisticFit.DescentStep | realtime/internal/calibration/live_calibrator.go:266-290 | one iteration over all samples is one step of the specified descent |
| LogisticFit.StepInSums | realtime/internal/calibration/live_calibrator.go:267-289 | one iteration moves the slope by the rate times the mean of (prediction - label) times score, the offset by the rate times the mean of (prediction - label), both downwards, written as sums over sequences |
| LogisticFit.ZeroScoresKeepSlope | realtime/internal/calibration/live_calibrator.go:278-285 | samples that all score zero never move the slope |
| LogisticFit.SeparationRaisesSlope | realtime/internal/calibration/live_calibrator.go:278-285 | with wins at the top score and losses at the bottom one every iteration raises the slope |
| LogisticFit.TwoSampleWitness | realtime/internal/calibration/live_calibrator.go:226-290 | a win at 100 and a loss at 0: the fitted slope ends above 2 |
| LogisticFit.FitFromBaseRate | realtime/internal/calibration/live_calibrator.go:254-290 | the fit starts with slope 2 predicting the base rate at the mean score, and its final rate is 0.1 * 0.98^100: one hundred iterations |
| LogisticFit.RateDecays | realtime/internal/calibration/live_calibrator.go:265-289 | the learning rate after k iterations is 0.1 * 0.98^k |
| LogisticFit.DriftBounded | realtime/internal/calibration/live_calibrator.go:263-290 | after k iterations slope and offset moved at most 5 (1 - 0.98^k), for any data |
| LogisticFit.AcceptedExactlyWhen | realtime/internal/calibration/live_calibrator.go:292-317 | the slope ends in (-3, 7), so its rejection never fires; a fit is refused only for an offset beyond 10; accepted slopes are in [0, 7) |
| LogisticFit.ModestStartAccepted | realtime/internal/calibration/live_calibrator.go:254-303 | a starting offset within 5 of zero is always accepted, by the drift bound alone |
| LogisticFit.StaysSubdued | realtime/internal/calibration/live_calibrator.go:263-290 | from an offset of at most -5 with at most 30% wins, the offset falls by at most half of the learning rate spent, less than 2.5 in all, and slope and offset rise by at most 0.3 of it |
| LogisticFit.EverySampleAccepted | realtime/internal/calibration/live_calibrator.go:226-318 | every non-empty sample with labels in [0, 1] and a score for each is accepted, whatever the scores: the rejections never fire; the result is the fitted pair, or the flat base rate for a negative slope |
| LogisticFit.OneClassDirection | realtime/internal/calibration/live_calibrator.go:266-290 | with only wins each iteration raises the offset and never lowers the slope; with only losses the reverse |
| LogisticFit.FlatFitIsBaseRate | realtime/internal/calibration/live_calibrator.go:305-315 | the flat replacement gives every score the clamped base rate |
| LogisticFit.FlatFitHonestExactlyWhen | realtime/internal/calibration/live_calibrator.go:305-315 | it reproduces the observed win rate if and only if that rate is between 1% and 99% |
| LogisticFit.ServedMonotoneExactlyWhen | realtime/internal/calibration/consumer.go:60-104 | a logistic model serves non-decreasing probabilities if and only if its slope is not negative |
| LogisticFit.AcceptedFitServesMonotone | realtime/internal/calibration/live_calibrator.go:305-317 | every accepted fit serves probabilities that never fall as the score rises |
| Interpolation.InterpBins | realtime/internal/calibration/loader.go:197-219 | the interpolated probability is always in [0, 1] |
| Interpolation.BinsMonotonic | realtime/internal/calibration/loader.go:224-236 | accepts exactly the non-empty knot lists whose probabilities never fall |
| Interpolation.InteriorBetween | realtime/internal/calibration/loader.go:207-217 | an interior score is interpolated on the segment around it and lies between that segment's probabilities |
| Interpolation.OnTheLine | realtime/internal/calibration/loader.go:207-216 | between probabilities in [0, 1] the answer lies on the straight line through the two knots around the score |
| Interpolation.GateImpliesMonotone | realtime/internal/calibration/loader.go:197-236 | every accepted knot list serves non-decreasing probabilities over all scores, even if the knots are not sorted |
| Interpolation.KnotValue | realtime/internal/calibration/loader.go:201-217 | for any sorted knots, the answer at a knot is its probability: the first of equal knots, except the last at the right end |
| Interpolation.FirstKnotExactlyWhen | realtime/internal/calibration/loader.go:201-217 | the first of equal knots answers if and only if they are not the right-most ones, or there is nothing to its left, or the last one agrees with it |
| Interpolation.LastKnotWitness | realtime/internal/calibration/loader.go:204-206 | two knots at the right end with 0.4 and 0.8: the answer there is 0.8 |
| Interpolation.GateExact | realtime/internal/calibration/loader.go:197-236 | for distinct sorted knots in [0, 1] the gate accepts exactly the lists that serve non-decreasing probabilities |
| Registry.LastRecordIsBest | realtime/internal/calibration/loader.go:130-139 | the winning file is the earliest eligible one with the greatest sample count |
| Registry.NewEntry | realtime/internal/calibration/loader.go:73-161 | a file changes a strategy's standing exactly if it is eligible and has more samples than the incumbent |
| Registry.SamplesNeverFall | realtime/internal/calibration/loader.go:130-139 | over any further loads the winning sample count never falls |
| Registry.Consumer.constructor | realtime/internal/calibration/consumer.go:34-38 | a new consumer serves nothing |
| Registry.Consumer.SetModel | realtime/internal/calibration/consumer.go:41-43 | only the live model of that strategy is replaced |
| Registry.Consumer.SeedDefaultModels | realtime/internal/calibration/consumer.go:112-136 | at any time, the four defaults replace the live models of their strategies, with their coefficients and provisional, and leave everything else; the live copies stay faithful if and only if none of those strategies has a logistic record |
| Registry.SeededServesNothing | realtime/internal/calibration/consumer.go:88-95 | a provisional default serves nothing, even where a file had been served before; the research path is unaffected |
| Registry.Consumer.LoadJSONModels | realtime/internal/calibration/loader.go:65-163 | after any sequence of scans each research model is its strategy's best file so far, and each live model mirrors the last logistic record |
| Registry.Consumer.PassesGate | realtime/internal/calibration/loader.go:81-126 | accepts exactly supported, named, good enough, large enough, monotone logistic or isotonic files |
| Registry.EligibleExactlyWhen | realtime/internal/calibration/loader.go:81-126 | the gate with its thresholds spelled out: version 1.0.0, AUC 0.52, 100 samples, logistic or rising isotonic |
| Registry.Consumer.Mirror | realtime/internal/calibration/loader.go:141-161 | the live model of the strategy becomes a validated copy of the file; all others are untouched |
| Registry.ServedExactlyWhen | realtime/internal/calibration/consumer.go:76-104 | the live path answers if and only if some logistic file ever set a record; the research path if and only if some eligible file was offered |
| Registry.SameSourceExactlyWhen | realtime/internal/calibration/loader.go:141-161 | both paths use the same file if and only if the best file, if any, is logistic |
| Registry.PathsAgree | realtime/internal/calibration/loader.go:169-181 | while the best file is logistic both paths give the same probability for every score |
| Registry.LiveProbability | realtime/internal/calibration/consumer.go:76-104 | the live path gives 1 / (1 + exp(-(a x + b))) with the last logistic record's own a and b and the clamped score over 100 |
| Registry.ResearchProbability | realtime/internal/calibration/loader.go:169-181 | the research path gives the best file's own logistic or interpolated probability |
| Registry.StaleWitness | realtime/internal/calibration/loader.go:145-148 | a logistic file followed by a larger isotonic one leaves the live path on the old file |
| Registry.ResearchPathMonotoneExactlyWhen | realtime/internal/calibration/loader.go:109-126 | the research path is monotone in the score if and only if the winner is not a logistic file with a negative slope |
| Registry.FallingModelWitness | realtime/internal/calibration/loader.go:109-126 | an eligible logistic file with slope -1 is served and gives score 100 less than score 0 |
| Watchdog.PruneTwice | watchdog/main.go:215-222 | pruning at an earlier instant loses nothing a later one would keep |
| Watchdog.IncrementalWindow | watchdog/main.go:210-222 | appending the rise and pruning equals filtering the whole history |
| Watchdog.WindowSize | watchdog/main.go:223-223 | the pruned log has as many entries as there are rises in the window |
| Watchdog.RisesAreSize | watchdog/main.go:210-223 | the count is the number of readings above the one before and within the window, counted as a set |
| Watchdog.ContainerVerdict | watchdog/main.go:198-261 | each finding about a container with its exact cause, at most one of them |
| Watchdog.HistoryGrows | watchdog/main.go:198-214 | a tick adds each service's reading to its own history and to no other |
| Watchdog.CrashLoopExactlyWhen | watchdog/main.go:210-230 | a crash loop is reported if and only if the observed counter rose at least as often as the limit within the window |
| Watchdog.StackVerdicts | watchdog/main.go:263-329 | each finding about the stack with its exact cause |
| Watchdog.WatchState.SuperviseOne | watchdog/main.go:198-261 | the finding about a service depends on this inspection and on the count of its rises in the window, crash loop if and only if that count reaches the limit |
| Watchdog.WatchState.Observe | watchdog/main.go:210-222 | the reading joins the history and the returned window has exactly the history's rises within it |
| Watchdog.WatchState.Supervise | watchdog/main.go:194-331 | all findings of a tick, in order, each service judged from its own history |
| Watchdog.StackNeverRecovers | watchdog/main.go:263-329 | no stack finding is a recovery, so nothing resets the breaker |
| Watchdog.WatchState.Remediate | watchdog/main.go:439-482 | suppressed within the cooldown of the latest restart, manual once the breaker count is reached, otherwise the command decides; only a success is logged |
| Watchdog.WatchState.Dispatch | watchdog/main.go:613-641 | the log after a tick is the findings acted on one after the other |
| Watchdog.OnlyActionableActs | watchdog/main.go:613-641 | a finding, in whatever company, adds a restart to the log if and only if it is container-down, unhealthy or stale ticks with an escalation and its remedy goes through; no other finding but a recovery touches the log |
| Watchdog.LostPoolDetectedExactlyWhen | watchdog/main.go:284-310 | the stack asks for a restart of a degraded engine if and only if the engine answers that it lost its database while the database runs |
| Watchdog.UnservedExactlyWhen | watchdog/main.go:297-304 | of everything a tick detects, the findings that ask for an escalation nobody serves are exactly the degraded-engine ones, and there is one if and only if the pool is lost |
| Watchdog.LostPoolIgnoredWitness | watchdog/main.go:297-304 | a tick with only the pool lost: the restart is asked for and the log stays as it was |
| Watchdog.RestartKeepsSpacing | watchdog/main.go:443-446 | a restart admitted by the cooldown keeps all restarts of a service a cooldown apart |
| Watchdog.ReplayOnlyRestarts | watchdog/main.go:624-626 | over any number of ticks no recovery is ever logged |
| Watchdog.ConsecutiveIsTotal | watchdog/main.go:447-450 | without recoveries the consecutive count is the total |
| Watchdog.RemediedExactlyWhen | watchdog/main.go:439-482 | at any point of any run a finding is remedied if and only if it asks for an escalation, the cooldown is over, the service was restarted fewer times since start-up than the limit, and the command succeeds |
| Watchdog.RefusedExactlyWhen | watchdog/main.go:443-475 | suppressed if and only if a restart lies within the cooldown, manual if and only if only the breaker stops it, failed if and only if only the command does |
| Watchdog.NeverRestartedAgain | watchdog/main.go:447-450 | a service restarted as often as the limit since start-up is never restarted again |
| Watchdog.RelapseWitness | watchdog/main.go:447-450 | down and restarted, seen healthy, down again a year later: the second outage is left alone |
| Watchdog.WatchState.RunOnce | watchdog/main.go:608-641 | one tick: histories and log move as the value-level replay says |
| Watchdog.WatchState.Run | watchdog/main.go:603-605 | over any number of ticks state equals the replay, restarts of a service are a cooldown apart, and there are never more of them than the breaker allows |
| Submission.SubmissionSession.Run | mail-relay/main.go:499-676 | the session is the fold of its lines |
| Submission.SubmissionSession.HandleLine | mail-relay/main.go:518-674 | one line in command or data mode |
| Submission.SubmissionSession.FinishMessage | mail-relay/main.go:521-554 | the end-of-data checks in order, then the message is spooled and the envelope and buffer cleared |
| Submission.SubmissionSession.AppendLine | mail-relay/main.go:555-564 | one leading dot removed from a doubled one; a line past the cap ends the session |
| Submission.SubmissionSession.Execute | mail-relay/main.go:579-673 | each command's effect on the envelope, the identity and the reply |
| Submission.StepKeepsSound | mail-relay/main.go:518-674 | outside data mode the buffer is empty; a sender implies an authenticated user; data mode implies sender and recipients; everything spooled obeys the relay's rules |
| Submission.SessionSound | mail-relay/main.go:518-674 | so in every session, whatever the client sends |
| Submission.EndOfDataChecksPass | mail-relay/main.go:523-530 | the first two end-of-data checks can never fail |
| Submission.MessageTransparent | mail-relay/main.go:520-565 | any lines, dot-stuffed and terminated, are spooled as sent, each with CRLF, if and only if they fit; otherwise nothing is spooled and the session ends |
| Submission.UnstuffStandardExactlyWhen | mail-relay/main.go:556-558 | unstuffing equals section 4.5.2 of RFC 5321 except on a single leading dot followed by another character |
| Submission.RecipientsAccumulate | mail-relay/main.go:643-655 | every recipient command keeps its recipient and answers 452 beyond 25 |
| Submission.EnvelopeAccepted | mail-relay/main.go:636-662 | a proper envelope puts the session into data mode with that sender and those recipients |
| Submission.OneMessage | mail-relay/main.go:518-674 | one complete message adds exactly that mail and leaves the session ready |
| Submission.SessionDelivers | mail-relay/main.go:518-674 | any number of complete messages in one session arrive in order, each with its own sender, recipients and lines |
| Submission.RecipientCapExactlyWhen | mail-relay/main.go:648-654 | in every session a spooled message has at most 25 recipients if and only if no more were accepted since the last clearing line |
| Submission.MessageCapExactlyWhen | mail-relay/main.go:648-654 | one complete message respects the cap if and only if the client stops at it |
| Submission.TwentySixWitness | mail-relay/main.go:648-654 | 26 recipients: the last is answered 452, and the spooled message has all of them |
| Submission.OverrunWitness | mail-relay/main.go:559-563 | ten lines of one byte more than ten megabytes are accepted and spooled |
| Submission.EnvelopeExactly | mail-relay/main.go:518-674 | at every point of every session the recipients are those accepted, and the sender the last one named, since the last RSET, successful STARTTLS or spooled message |
| Submission.SpooledExactly | mail-relay/main.go:521-554 | every spooled message has exactly that sender and those recipients |
| Submission.IdentityExactly | mail-relay/main.go:588-635 | at every point of every session the client is the user of the last AUTH PLAIN with the password on record since the last successful STARTTLS, and nobody if there is none |
| Submission.SpooledByProvenUser | mail-relay/main.go:521-554 | every spooled message comes after such a line |
| Submission.AuthAnswered | mail-relay/main.go:602-635 | an AUTH PLAIN is answered 235 and the session goes on if and only if somebody is authenticated after it; otherwise it ends with 535 |
| Submission.WrongPasswordWitness | mail-relay/main.go:619-634 | a wrong password on a fresh session: 535 and the end |
| Submission.SecondGuessWitness | mail-relay/main.go:619-635 | a wrong password on an authenticated session: 235, and the old user stays |
| Submission.AllowedExactlyWhen | mail-relay/main.go:531-541 | a sender is allowed if and only if the lower-cased text after its last at-sign is an allowed domain |
| Submission.CommandAnswered | mail-relay/main.go:579-673 | every command is answered, and with which code |
| Submission.DataAnswered | mail-relay/main.go:520-565 | 552 exactly past the cap; at the end of the data the first check that fails, or 250 |
| Submission.OwnRecipientsExactlyWhen | mail-relay/main.go:636-655 | a spooled message goes only to recipients given after its own MAIL if and only if none had been accepted between the last clearing line and that MAIL |
| Submission.CarriedOverWitness | mail-relay/main.go:636-655 | MAIL a, RCPT p, MAIL b, RCPT q, DATA and an empty message: spooled from b to both |
| FalseDiscovery.BenjaminiHochberg | scripts/phase1_run.py:132-144 | marks exactly the hypotheses that meet their own rank's threshold: the remembered threshold never changes a decision |
| FalseDiscovery.ThresholdsRise | scripts/phase1_run.py:138-139 | thresholds grow with rank |
| FalseDiscovery.MeetsInProducts | scripts/phase1_run.py:138-140 | a hypothesis meets its threshold if and only if p times the number of hypotheses is at most rank times q |
| FalseDiscovery.MarkedWithinStepUp | scripts/phase1_run.py:132-144 | marked hypotheses are step-up rejections, with the same largest rank; one set is empty exactly if the other is |
| FalseDiscovery.AgreesExactlyWhen | scripts/phase1_run.py:132-144 | the loop agrees with step-up if and only if no hypothesis misses its threshold below one that meets its own |
| FalseDiscovery.NotStepUpWitness | scripts/phase1_run.py:132-144 | p-values 0.06 and 0.07 at q = 0.10: step-up rejects both, the loop one |
| FalseDiscovery.Recommend | scripts/phase1_run.py:147-190 | refused below the gate; otherwise promote, roll back or hold by effect size and mark |
| FalseDiscovery.Report | scripts/phase1_run.py:231-247 | every strategy gets its verdict, and every promotion or rollback has enough samples, enough effect and a step-up rejection behind it |

## Left out

- Rounding, overflow, NaN and infinity of floats, decimal division precision, and saturating durations: the models use exact reals and unbounded nanoseconds.
- The strategy evaluators, the feature engine, regime thresholds, identifiers and context cancellation: arbitrary per-bar inputs.
- The trade's strategy, regime, session and raw-score labels, the tally of no-trade reasons, run identifiers and durations, and `TotalExposure`: carried along without affecting any decision.
- Metrics.ComputeMetrics: does not model the Sharpe and Sortino ratios, formulas over the return list with no property beyond their definition.
- RunAccounting.DailyLimitHolds: assumes bar times that never decrease and start at least one day after the zero time, because the code uses the zero date to mean "no day yet".
- RunAccounting.CooldownHolds: assumes non-decreasing bar times and the production-parity switch, without which the code consults no cooldown.
- Metrics.DrawdownExact: assumes a non-negative initial balance, and Metrics.ReportedExactlyWhen a positive one; with a negative one the zero start of the curve is above it and the comparison has another form.
- HigherTimeframes.AdvanceAll: takes the timeframes as a sequence of distinct lookups, where the code ranges over a map in unspecified order; the lookups are independent.
- The correlation windows and regime classification around the correlation, the circuit breaker, the return calculators and the other cross-market detectors: threshold tables and buffers.
- Directory listing, JSON parsing and the Brier, calibration-error and Wilson fields of a model: a scan is a list of parsed or unreadable entries.
- Registry.Consumer.SetModel: may install a model that mirrors no file; the theorems about the live path speak of consumers changed only by seeding and loading.
- RankStatistic.FlippedLabels: assumes no label is exactly one half, since the code counts one half as a loss on either side of the flip.
- LogisticFit.EverySampleAccepted: assumes two lower bounds on the exponential, exp(3) > 20 and exp(5) > 148, beyond the laws used elsewhere.
- LogisticFit.AcceptedExactlyWhen: assumes labels in [0, 1], which is what the loader of outcomes produces.
- Docker, HTTP and SQL probes, disk parsing, alert texts and notifications of the watchdog: probe results are inputs and alerts are not modelled.
- Watchdog.WatchState.Run: assumes a clock that does not go back, one instant per tick and a non-negative cooldown; the code reads the clock twice per tick.
- Command parsing and address extraction of the relay, the scanner's line limit, the TLS handshake and password storage: the parser is an arbitrary function and outcomes are inputs; bytes are characters and lower-casing is ASCII.
- Delivery, retry, spooling and DKIM of the relay: `Submission.SubmissionSession.FinishMessage` only learns whether the spool accepted the message.
- FalseDiscovery.BenjaminiHochberg: receives the hypotheses already ranked; sorting, the permutation p-values, the walk-forward split and the effect computation are library calls or inputs.
- The frontend, the control plane, the training scripts and the remaining services.
