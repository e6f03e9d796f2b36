# Verified model of the Trading repository's execution and pricing cores

This Dafny project models the deterministic cores of the Trading repository and proves
properties of them. It covers:

- **Backtester** (`backtester.dfy`). The execution-aware backtester of
  `signal-generator-lasso-xgb/backtester.py` is a per-bar state machine. Its three control states
  are idle, waiting for a volatility-offset limit trigger, and holding a position. Its module-level
  state becomes the fields of the class `Backtest`. `Backtest.Step` is proved to perform the pure
  transition `StepSpec`, and `Backtest.Run` the whole bar loop `RunSpec`. The invariant
  (`Inv`) and the growth properties (`Grows`) are lemmas about those functions. The coin of
  `random.random()` is an input of each step.
- **Signal and statistics rules.**
  - `evaluate_trades.dfy`: the per-trade statistics.
  - `generate_signals.dfy`: the XGBoost position labelling, an in-place update of a frame class.
  - `volatility_filters.dfy`: the volatility-cooling rule, with its quantiles as inputs.
  - `sync_dfs.dfy`: the alignment of 2-hour signals onto 1-minute bars, an in-place array loop.
  - `java_signal.dfy` and `java_signal_filter.dfy`: the Java `Signal` and `SignalFilter`.
- **Fixed-income arithmetic.**
  - `par_bootstrap.dfy`: the par-yield discount-factor recurrence that both `swap_pricer.py`
    and `yield_curve.py` implement. Each of `swap_pricer.dfy` and `yield_curve.dfy` runs it
    in its own array loop.
  - `swap_pricer.dfy`: forwards, the payment schedule, `np.interp`, swap values, the fair rate
    and DV01.
  - `derivatives_pricer.dfy`: the two-section market-file loader and the log-linear curve lookup
    of `derivatives_pricer.cpp`.
  - `risk_curve.dfy`, `risk_bond.dfy` and `risk_engine.dfy`: the step yield curve, the bond and
    the scenario engine of `risk_engine_cpp`.

Prices are `real`, so there is no IEEE rounding. `exp`, `log` and `sqrt` are parameters of the
operations that need them. `transcendental.dfy` states the only laws the proofs assume:
- `exp(0) = 1`;
- `exp` is positive and strictly increasing;
- `log` is a right inverse of `exp` on the positive reals;
- `sqrt` is non-negative and vanishes only at 0.

A pandas NaN, a Python `None` and a missing map entry are `Option.None`. A thrown error is a
`Result.Err`, and the backtester's `TypeError` is the `StepResult.TypeError` case.

The balance is not the initial balance plus the sum of the trades' `pnl`. Every entry debits
the entry fee from the balance (`backtester.py:78-79`), and that fee is outside the recorded
`pnl`. The model therefore states the ledger the code keeps (`LedgerChained`): each trade's
closing balance is the balance before it, less the entry fee, plus its pnl.

An outcome is counted before the exit is tested with `if exit_price:` (`backtester.py:105`), so
an exit priced 0.0 is counted but never closed. `Backtester.StepUnbooked` states this for every
configuration.

## Model

| member | source | states |
|---|---|---|
| Backtester.FixedLevelsBracketEntry | signal-generator-lasso-xgb/backtester.py:84-89 | with 0 < MAX_RISK < LEVERAGE and TARGET_RETURN > 0, fixed-fraction levels give stop < entry < target for a long and target < entry < stop for a short; ATR levels are used only when both ATR multipliers are non-zero |
| Backtester.FixedLevelsPnl | signal-generator-lasso-xgb/backtester.py:88-107 | under fixed-fraction levels, a target exit earns raw pnl TARGET_RETURN * entry_balance and a stop exit loses MAX_RISK * entry_balance, in either direction |
| Backtester.FixedLevelsPositive | signal-generator-lasso-xgb/backtester.py:88-89 | under a positive-levels configuration both levels of a positive entry are positive prices |
| Backtester.ResolveAsWritten | signal-generator-lasso-xgb/backtester.py:46-51 | the resolver as written returns only target, stop or None; None exactly when the coin is >= 0.5 and the bar is not ambiguous; a coin < 0.5 always gives the target |
| Backtester.ResolveCorrected | signal-generator-lasso-xgb/backtester.py:46-51 | the intended resolver gives an exit exactly on an ambiguous bar, the coin choosing target or stop |
| Backtester.AsWrittenExitsAtUntouchedTarget | signal-generator-lasso-xgb/backtester.py:51 | a bar touching neither level, with coin 0.25, resolves to the target |
| Backtester.PeakOf | signal-generator-lasso-xgb/backtester.py:121-122 | the peak is at least the initial balance and every recorded closing balance, and equals one of them |
| Backtester.Drawdown | signal-generator-lasso-xgb/backtester.py:123 | the drawdown of a balance at or below the peak is >= 0, and < 1 for a positive balance |
| Backtester.DrawdownDominates | signal-generator-lasso-xgb/backtester.py:123 | the maximum drawdown is >= 0 and at least the drawdown measured after every closed trade |
| Backtester.InitialInv | signal-generator-lasso-xgb/backtester.py:23-39 | the initial state satisfies the engine invariant |
| Backtester.Settle | signal-generator-lasso-xgb/backtester.py:93-103 | the resolver's exit, if any, counts as ambiguous and appends the bar index; otherwise a stop hit is the stop and one loss, tested before a target hit, which is the target and one win; otherwise no exit and no count; nothing else changes |
| Backtester.Trigger | signal-generator-lasso-xgb/backtester.py:141 | the trigger is close*(1 - vol*ATR_MULTIPLIER) for a long and close*(1 + vol*ATR_MULTIPLIER) for a short, below or above the close respectively |
| Backtester.RecordInv | signal-generator-lasso-xgb/backtester.py:147-148 | appending to the equity curve keeps the invariant |
| Backtester.WaitPhaseInv | signal-generator-lasso-xgb/backtester.py:60-89 | the waiting branch, a fill included, keeps the invariant |
| Backtester.AppendTrade | signal-generator-lasso-xgb/backtester.py:105-123 | appending a trade extends the chained ledger, and the peak and maximum drawdown as the close updates them |
| Backtester.CloseInv | signal-generator-lasso-xgb/backtester.py:105-123 | closing a position keeps the invariant, including wins + losses + ambiguous == len(trades) for fixed-fraction levels with MAX_RISK and TARGET_RETURN in [0, LEVERAGE) |
| Backtester.ExitPhaseInv | signal-generator-lasso-xgb/backtester.py:92-123 | the in-trade branch keeps the invariant |
| Backtester.SignalPhaseInv | signal-generator-lasso-xgb/backtester.py:126-145 | the new-signal branch keeps the invariant |
| Backtester.StepInv | signal-generator-lasso-xgb/backtester.py:54-148 | every bar keeps the invariant: never both holding and waiting, the ledger chained, peak and drawdown those of the ledger, counters consistent |
| Backtester.ExitPhaseUnbooked | signal-generator-lasso-xgb/backtester.py:92-123 | for any configuration, the in-trade branch books a trade for every outcome it counts, except an exit priced 0.0, which is counted and left open |
| Backtester.StepUnbooked | signal-generator-lasso-xgb/backtester.py:54-148 | for any configuration, one bar changes wins + losses + ambiguous - len(trades) only by one exit priced 0.0, and not at all when the held levels are non-zero |
| Backtester.WaitPhaseOutcome | signal-generator-lasso-xgb/backtester.py:60-71 | a pending entry fills at exactly its trigger (long on low <= trigger, short on high >= trigger) and books nothing; otherwise the count grows by one, the wait ends once it reaches MAX_WAIT_BARS, and the bar is recorded |
| Backtester.MissingVolSkipsRecord | signal-generator-lasso-xgb/backtester.py:139-148 | with the filter on, a signal on a NaN-volatility bar queues no pending entry, and ends the bar unrecorded exactly when the bar ends flat |
| Backtester.ExitPhaseGrows | signal-generator-lasso-xgb/backtester.py:92-123 | the in-trade branch appends at most one trade and counts at most one outcome; peak and drawdown never fall and change only when a trade closes |
| Backtester.StepGrows | signal-generator-lasso-xgb/backtester.py:54-148 | one bar appends at most one trade and one equity point (at its own index); peak and drawdown never fall and change only with a trade |
| Backtester.RunGrows | signal-generator-lasso-xgb/backtester.py:54-148 | over a run, the ledger, ambiguous indexes, equity curve and timestamps are only appended to; peak and drawdown never fall; new timestamps are bar indexes of the run |
| Backtester.RunInv | signal-generator-lasso-xgb/backtester.py:54-148 | every reached state satisfies the invariant; for fixed-fraction levels with MAX_RISK and TARGET_RETURN in [0, LEVERAGE), wins + losses + ambiguous == len(trades) |
| Backtester.AsWrittenSettlesUntouchedBar | signal-generator-lasso-xgb/backtester.py:46-103 | as written, a held long whose bar touches neither level exits at the target on a coin < 0.5 |
| Backtester.CorrectedExitsAtTouchedLevel | signal-generator-lasso-xgb/backtester.py:93-103 | repaired, an exit is always a level the bar reached, and there is no exit exactly when neither level was reached |
| Backtester.AsWrittenImmediateEntryRaises | signal-generator-lasso-xgb/backtester.py:130-137 | as written, with ATR_MULTIPLIER == 0 a signal opens a position without stop and target, and the next bar raises the TypeError |
| Backtester.CorrectedNeverRaises | signal-generator-lasso-xgb/backtester.py:130-137 | repaired, a run never raises |
| Backtester.WinRate | signal-generator-lasso-xgb/backtester.py:153 | the printed win rate lies in [0, 1], is 0 exactly without wins, and times wins + losses gives the wins |
| Backtester.Backtest.constructor | signal-generator-lasso-xgb/backtester.py:23-39 | the fields start at the source's initial values and satisfy the invariant |
| Backtester.Backtest.RecordEquity | signal-generator-lasso-xgb/backtester.py:147-148 | the balance and the bar index are appended |
| Backtester.Backtest.Open | signal-generator-lasso-xgb/backtester.py:73-80 | the position opens at the price with entry_balance = balance * (1 - MAKER_FEE), debited from the balance |
| Backtester.Backtest.SetLevels | signal-generator-lasso-xgb/backtester.py:84-89 | stop and target are set to the levels for the entry |
| Backtester.Backtest.WaitOneBar | signal-generator-lasso-xgb/backtester.py:66-68 | the wait count grows by one and the wait ends at MAX_WAIT_BARS |
| Backtester.Backtest.StopWaiting | signal-generator-lasso-xgb/backtester.py:81 | the waiting flag is cleared |
| Backtester.Backtest.EnterAtTrigger | signal-generator-lasso-xgb/backtester.py:61-89 | the new state is the fill at the trigger price |
| Backtester.Backtest.KeepWaiting | signal-generator-lasso-xgb/backtester.py:65-71 | the new state is the waited bar, counted and recorded |
| Backtester.Backtest.WaitForTrigger | signal-generator-lasso-xgb/backtester.py:60-89 | the new state and the continue flag are those of the waiting branch |
| Backtester.Backtest.CountOutcome | signal-generator-lasso-xgb/backtester.py:93-103 | the exit and the counters are those of the bar's resolution: ambiguous first, then stop, then target |
| Backtester.Backtest.Book | signal-generator-lasso-xgb/backtester.py:106-123 | the closed trade, with pnl = raw pnl - entry_balance * LEVERAGE * MAKER_FEE, is appended; balance, peak and drawdown are updated |
| Backtester.Backtest.Flatten | signal-generator-lasso-xgb/backtester.py:119-120 | the position is flat and stop and target are None |
| Backtester.Backtest.CloseAt | signal-generator-lasso-xgb/backtester.py:105-123 | the new state is the close at the exit price |
| Backtester.Backtest.ManagePosition | signal-generator-lasso-xgb/backtester.py:92-123 | the new state is the in-trade branch's; a missing level is the TypeError and changes nothing |
| Backtester.Backtest.EnterOnSignal | signal-generator-lasso-xgb/backtester.py:130-137 | the position opens at the close; as written the levels are left unset |
| Backtester.Backtest.StartWaiting | signal-generator-lasso-xgb/backtester.py:141-145 | the entry waits in the signal's direction at the trigger with a zero count |
| Backtester.Backtest.ActOnSignal | signal-generator-lasso-xgb/backtester.py:126-145 | the new state and the skip flag are those of the new-signal branch |
| Backtester.Backtest.Step | signal-generator-lasso-xgb/backtester.py:55-148 | one bar performs StepSpec and keeps the invariant |
| Backtester.Backtest.Run | signal-generator-lasso-xgb/backtester.py:54-148 | the loop from the second bar on performs RunSpec, stopping at a TypeError |
| EvaluateTrades.ReturnsConcat | signal-generator-lasso-xgb/evaluate_trades.py:19-23 | the returns keep input order: the filter distributes over concatenation |
| EvaluateTrades.ReturnsEmpty | signal-generator-lasso-xgb/evaluate_trades.py:19-26 | there are no returns exactly when no trade has entry_balance > 0 |
| EvaluateTrades.WinLoss | signal-generator-lasso-xgb/evaluate_trades.py:33-34 | wins and losses add up to the number of returns; no wins exactly when no return is positive |
| EvaluateTrades.Mean | signal-generator-lasso-xgb/evaluate_trades.py:28 | the mean times the count is the sum |
| EvaluateTrades.SquaredDeviations | signal-generator-lasso-xgb/evaluate_trades.py:29 | each squared deviation is (r - m)^2 and non-negative |
| EvaluateTrades.DeviationsZero | signal-generator-lasso-xgb/evaluate_trades.py:29 | the squared deviations sum to zero exactly when every return equals the centre |
| EvaluateTrades.VarianceZero | signal-generator-lasso-xgb/evaluate_trades.py:29 | the variance is >= 0, and 0 exactly when all returns equal the mean |
| EvaluateTrades.SharpeOf | signal-generator-lasso-xgb/evaluate_trades.py:30 | the Sharpe ratio is NaN exactly when std is 0 |
| EvaluateTrades.Annualize | signal-generator-lasso-xgb/evaluate_trades.py:31 | the annualised ratio is NaN exactly when the ratio is, for a non-negative factor |
| EvaluateTrades.WinRateOf | signal-generator-lasso-xgb/evaluate_trades.py:35 | with decided trades, the win rate is a number in [0, 1], zero exactly without wins |
| EvaluateTrades.EvaluateNone | signal-generator-lasso-xgb/evaluate_trades.py:15-43 | None exactly when no trade is eligible (an empty list included); otherwise Num Trades is the count of returns and the mean is theirs |
| EvaluateTrades.EvaluateWinRate | signal-generator-lasso-xgb/evaluate_trades.py:33-35 | the win rate of a result is in [0, 1], zero exactly when no return is positive |
| EvaluateTrades.EvaluateSharpeNaN | signal-generator-lasso-xgb/evaluate_trades.py:29-31 | std >= 0; Sharpe is NaN exactly when std is 0, which is exactly when all returns are equal; the annualised Sharpe is NaN exactly when the Sharpe is |
| XgbSignals.Position | signal-generator-lasso-xgb/generate_signals.py:23-37 | Position is in {-1, 0, 1}; 1 iff prediction 2 with long conf and gap above their thresholds; -1 iff prediction 0 with short conf and gap above them |
| XgbSignals.MasksExclusive | signal-generator-lasso-xgb/generate_signals.py:23-37 | the two masks never both hold, so the order of the masked writes does not matter |
| XgbSignals.ThresholdsStrict | signal-generator-lasso-xgb/generate_signals.py:23-35 | prediction 1, a gap equal to its threshold, or both confidences equal to theirs leave Position 0 |
| XgbSignals.SignalFrame.GenerateXgbSignals | signal-generator-lasso-xgb/generate_signals.py:10-41 | the masks and Position of every row follow the labelling rule; the input columns are unchanged |
| Signals.Signal.GetLabel | java_signal_filter/signal.java:26-30 | "Long" iff isLong, "Short" iff isShort, "Flat" otherwise, and nothing else |
| Signals.LongShortExclusive | java_signal_filter/signal.java:18-24 | isLong and isShort never both hold for the same thresholds |
| SignalFilters.SignalFilter.FilterSignals | java_signal_filter/signalFilter.java:21-27 | one label per signal, in order, each that signal's getLabel, each one of the three labels |
| SignalFilters.FilterSignalsConcat | java_signal_filter/signalFilter.java:24-26 | labelling distributes over concatenation; an empty batch gives an empty list |
| VolCooling.RollingSum | signal-generator-lasso-xgb/volatility_filters.py:32 | the rolling sum is defined exactly from the window's last row on |
| VolCooling.RollingMean | signal-generator-lasso-xgb/volatility_filters.py:30 | the rolling mean is defined exactly from the window's last row on, and times the window is the window's sum |
| VolCooling.PastMean | signal-generator-lasso-xgb/volatility_filters.py:30 | the shifted mean is defined from row `lookback` on and is the mean of the `lookback` rows before |
| VolCooling.PastMeanExcludesCurrent | signal-generator-lasso-xgb/volatility_filters.py:30 | the past mean at a row does not depend on that row or later ones |
| VolCooling.VolCooled | signal-generator-lasso-xgb/volatility_filters.py:31 | a cooled row has a defined past mean |
| VolCooling.Thresholds | signal-generator-lasso-xgb/volatility_filters.py:34-40 | the quantiles without a threshold; with one, the band [-abs(t), abs(t)] |
| VolCooling.Select | signal-generator-lasso-xgb/volatility_filters.py:42-47 | np.select: 1 iff cooled and the sum is below lower; -1 iff cooled, not below lower, and above upper; otherwise 0 |
| VolCooling.GivenThresholdExclusive | signal-generator-lasso-xgb/volatility_filters.py:38-47 | with a given threshold the two conditions never both hold |
| VolCooling.Positions | signal-generator-lasso-xgb/volatility_filters.py:29-47 | one Position per row, in {-1, 0, 1}, non-zero only on cooled rows with both windows filled |
| VolCooling.PositionsRule | signal-generator-lasso-xgb/volatility_filters.py:42-47 | row by row, the Position is the first matching condition's choice |
| SyncFrames.SignalRows | signal-generator-lasso-xgb/sync_dfs.py:23 | exactly the rows with a non-zero Position are kept |
| SyncFrames.SignalRowsConcat | signal-generator-lasso-xgb/sync_dfs.py:23 | the filter keeps relative order |
| SyncFrames.SearchsortedRight | signal-generator-lasso-xgb/sync_dfs.py:32 | the index is at most the length |
| SyncFrames.SearchsortedRightSplits | signal-generator-lasso-xgb/sync_dfs.py:32 | on sorted times, every time before the index is <= t and every one from it on is > t |
| SyncFrames.Landing | signal-generator-lasso-xgb/sync_dfs.py:28-33 | a landing index is a bar of the frame |
| SyncFrames.LandingIsFirstLaterBar | signal-generator-lasso-xgb/sync_dfs.py:29-33 | an in-window signal lands on the first bar closing strictly later, and is dropped exactly when it equals the last bar's time |
| SyncFrames.Place | signal-generator-lasso-xgb/sync_dfs.py:32-36 | one iteration keeps the frame's length |
| SyncFrames.Attach | signal-generator-lasso-xgb/sync_dfs.py:18-36 | the output has the 1-minute frame's length |
| SyncFrames.LastLanding | signal-generator-lasso-xgb/sync_dfs.py:27-36 | the row found is one of the signals and lands on the bar |
| SyncFrames.AttachIsLastLanding | signal-generator-lasso-xgb/sync_dfs.py:27-36 | each bar carries the columns of the last signal landing on it, or Position 0 and NaNs when none does |
| SyncFrames.AttachConsistent | signal-generator-lasso-xgb/sync_dfs.py:18-36 | a bar with Position 0 has NaN Rolling_TR and Signal_Close; when every signal row's Rolling_TR and Close are numbers, a bar with both NaN has Position 0 (a 2-hour NaN is copied as it is) |
| SyncFrames.AttachSignals | signal-generator-lasso-xgb/sync_dfs.py:10-38 | the output has the 1-minute frame's length |
| SyncFrames.AttachSignalsBars | signal-generator-lasso-xgb/sync_dfs.py:23-36 | each bar with Position 0 has NaN signal columns, and each bar is untouched or carries a non-zero in-window signal that closed before it |
| SyncFrames.AttachSignalsToLowerTf | signal-generator-lasso-xgb/sync_dfs.py:10-38 | the array loop's result is AttachSignals |
| Numerics.SumScaledIsScaledSum | interest-rate-swap-pricer/swap_pricer.py:43 | np.sum(d * c) == c * np.sum(d) |
| Numerics.Trunc | risk_engine_cpp/src/Bond.cpp:9 | int(x) truncates toward zero |
| ParBootstrap.Coupon | interest-rate-swap-pricer/swap_pricer.py:39 | bills carry coupon 0; a longer tenor's coupon is half its yield |
| ParBootstrap.Bootstrap | interest-rate-swap-pricer/swap_pricer.py:37-44 | one discount factor per step |
| ParBootstrap.BootstrapPrefix | interest-rate-swap-pricer/swap_pricer.py:38-44 | later factors never change earlier ones |
| ParBootstrap.NextDfIdentity | interest-rate-swap-pricer/swap_pricer.py:39-44 | one step discounts simply, or prices its par bond at 1 |
| ParBootstrap.BootstrapAt | interest-rate-swap-pricer/swap_pricer.py:38-44 | factor i is the step on the first i factors |
| ParBootstrap.BootstrapIdentities | interest-rate-swap-pricer/swap_pricer.py:40-44 | disc[0] * (1 + y0 * T0) == 1; every coupon tenor satisfies c * Σ_{j<i} disc[j] + (1 + c) * disc[i] == 1 |
| ParBootstrap.AsWrittenBillAtPar | interest-rate-swap-pricer/swap_pricer.py:39-44 | as written, a bill after the first tenor has factor exactly 1 |
| ParBootstrap.CorrectedBillDiscounts | interest-rate-swap-pricer/swap_pricer.py:39-44 | corrected, every bill is discounted at its simple yield, strictly inside (0, 1) for a positive yield |
| SwapPricer.AsWrittenBillsAtPar | interest-rate-swap-pricer/swap_pricer.py:39-44 | as written, the 3M and 6M factors are exactly 1 whatever their yields |
| SwapPricer.BootstrapDf | interest-rate-swap-pricer/swap_pricer.py:35-45 | the array loop fills exactly the bootstrap |
| SwapPricer.ForwardsRebuildDfs | interest-rate-swap-pricer/swap_pricer.py:56-62 | the forwards rebuild the factors: df0 * (1 + f0/freq) == 1 and df[i] * (1 + f[i] * dt) == df[i-1] |
| SwapPricer.ForwardsFromDf | interest-rate-swap-pricer/swap_pricer.py:50-63 | the array loop fills exactly the forward curve |
| SwapPricer.Forwards | interest-rate-swap-pricer/swap_pricer.py:50-63 | one forward per discount factor |
| SwapPricer.GenerateSchedule | interest-rate-swap-pricer/swap_pricer.py:68-71 | int(years * freq) times (none if not positive), time i equal to (i + 1)/freq |
| SwapPricer.ScheduleShape | interest-rate-swap-pricer/swap_pricer.py:68-71 | the times strictly increase, and a whole number of periods ends at the maturity |
| SwapPricer.InterpAtKnots | interest-rate-swap-pricer/swap_pricer.py:76-77 | on increasing knots, interpolation reproduces every knot's value |
| SwapPricer.Interpolate | interest-rate-swap-pricer/swap_pricer.py:76-77 | one value per time |
| SwapPricer.FairRate | interest-rate-swap-pricer/swap_pricer.py:86-89 | None exactly for a zero annuity; otherwise rate * Σdf == Σ df * fwd |
| SwapPricer.FairRateZeroesPv | interest-rate-swap-pricer/swap_pricer.py:79-89 | a swap struck at the fair rate is worth 0, whatever delta either call gets |
| SwapPricer.PriceSwapInRate | interest-rate-swap-pricer/swap_pricer.py:79-84 | the fixed leg is the rate times N * delta * Σdf, and with a positive annuity a higher rate lowers the value |
| SwapPricer.Bumped | interest-rate-swap-pricer/swap_pricer.py:92 | the bumped series keeps its index |
| SwapPricer.BumpedZero | interest-rate-swap-pricer/swap_pricer.py:92 | a zero bump changes nothing |
| SwapPricer.BumpedLowers | interest-rate-swap-pricer/swap_pricer.py:92 | a positive bump lowers every positive factor at a positive time, keeping it positive |
| SwapPricer.BumpedForwardsDefined | interest-rate-swap-pricer/swap_pricer.py:92-94 | a bumped curve still has defined forwards |
| SwapPricer.Dv01 | interest-rate-swap-pricer/swap_pricer.py:91-98 | DV01 times bump times notional is the change of value under the bumped curve |
| SwapPricer.PerUnit | interest-rate-swap-pricer/swap_pricer.py:98 | the quotient times bump times notional is the change |
| YieldCurve.Decimal | yield-curve-model/yield_curve.py:39 | each decimal yield times 100 is the percent yield |
| YieldCurve.BootstrapZeroCurve | yield-curve-model/yield_curve.py:36-47 | the array loop fills exactly the bootstrap, one factor per tenor |
| YieldCurve.FirstFactorSimple | yield-curve-model/yield_curve.py:43-44 | disc[0] * (1 + par0 / 12) == 1 |
| YieldCurve.CouponFactorsAtPar | yield-curve-model/yield_curve.py:42-47 | every tenor above one year prices its par bond at 1 with coupon par_i / 2 |
| YieldCurve.AsWrittenBillsAtPar | yield-curve-model/yield_curve.py:42-47 | as written, the 3M, 6M and 1Y factors are exactly 1 |
| DerivativesPricer.ReplaceCommas | derivatives_pricer/derivatives_pricer.cpp:61 | the line keeps its length |
| DerivativesPricer.MarketFile | derivatives_pricer/derivatives_pricer.cpp:52-73 | the too-short-curve error exactly with fewer than 2 curve points (checked first); the missing-caplets error exactly with no caplets; otherwise the loaded curve and caplets |
| DerivativesPricer.LoadMarketFile | derivatives_pricer/derivatives_pricer.cpp:52-73 | the loop and the two checks compute MarketFile |
| DerivativesPricer.LoadConcat | derivatives_pricer/derivatives_pricer.cpp:56-70 | reading two pieces one after the other is reading the whole |
| DerivativesPricer.CurveVectorsAligned | derivatives_pricer/derivatives_pricer.cpp:63-65 | t and df always have one length, and every factor exp(-z * m) is positive |
| DerivativesPricer.IgnoredLinesDropOut | derivatives_pricer/derivatives_pricer.cpp:57-58 | blank and comment lines can be removed anywhere without changing the result |
| DerivativesPricer.CurveFrozenAfterHeader | derivatives_pricer/derivatives_pricer.cpp:60-65 | once a T line is read the flag stays down and the curve never changes |
| DerivativesPricer.HeaderEndsCurve | derivatives_pricer/derivatives_pricer.cpp:60 | a T line ends the curve section, whatever follows it |
| DerivativesPricer.NoHeaderNoCaplets | derivatives_pricer/derivatives_pricer.cpp:60-72 | without a T line there are no caplets and the load fails |
| DerivativesPricer.UpperBound | derivatives_pricer/derivatives_pricer.cpp:46 | the bound is at most the length |
| DerivativesPricer.UpperBoundSplits | derivatives_pricer/derivatives_pricer.cpp:46 | on sorted maturities, those before the bound are <= x and the rest > x |
| DerivativesPricer.Bracket | derivatives_pricer/derivatives_pricer.cpp:46 | an interior x gets i with t[i] <= x < t[i+1] |
| DerivativesPricer.LookupClamps | derivatives_pricer/derivatives_pricer.cpp:44-45 | df.front() at or before the first maturity, df.back() at or after the last |
| DerivativesPricer.LookupBetween | derivatives_pricer/derivatives_pricer.cpp:46-48 | an interior lookup lies between the two bracketing factors |
| DerivativesPricer.LookupAtKnots | derivatives_pricer/derivatives_pricer.cpp:43-49 | at a maturity the lookup returns that maturity's own factor |
| RiskCurve.LowerBound | risk_engine_cpp/src/Curve.cpp:6 | the smallest key >= days, or the end exactly when every key is below days |
| RiskCurve.LookupKey | risk_engine_cpp/src/Curve.cpp:5-8 | the first key at or after days, or else the last key |
| RiskCurve.DiscountFactorStep | risk_engine_cpp/src/Curve.cpp:5-8 | the value at the next key, with no interpolation; exact at a key |
| RiskCurve.DiscountFactorBeyond | risk_engine_cpp/src/Curve.cpp:7 | beyond the last key, the last key's value |
| RiskCurve.DiscountFactorPositive | risk_engine_cpp/src/Curve.cpp:5-8 | on a curve of positive factors every lookup is positive |
| RiskCurve.Years | risk_engine_cpp/src/Curve.cpp:11 | the year fraction is 0 exactly at day 0 |
| RiskCurve.ZeroRate | risk_engine_cpp/src/Curve.cpp:10-13 | undefined exactly at day 0; otherwise rate * t == -log(df) |
| RiskCurve.ZeroRateRoundTrip | risk_engine_cpp/src/Curve.cpp:10-13 | exp(-rate * t) recovers the discount factor |
| RiskCurve.Bump | risk_engine_cpp/src/Curve.cpp:14-19 | the same keys, every value scaled by exp(-shift * 1e-4) |
| RiskCurve.Bumped | risk_engine_cpp/src/Curve.cpp:14-19 | the key-order loop builds exactly Bump |
| RiskCurve.BumpZero | risk_engine_cpp/src/Curve.cpp:16-17 | bumped(0) is the curve itself |
| RiskCurve.BumpMoves | risk_engine_cpp/src/Curve.cpp:16-17 | a positive shift strictly lowers every positive value, keeping it positive; a negative one strictly raises it |
| RiskCurve.DiscountFactorBumped | risk_engine_cpp/src/Curve.cpp:5-19 | every lookup on the bumped curve is the base lookup times the bump factor |
| RiskBond.Coupons | risk_engine_cpp/src/Bond.cpp:8-9 | n coupons pushed |
| RiskBond.CouponsAt | risk_engine_cpp/src/Bond.cpp:8-9 | coupon k is at day int(365.0/freq*(k+1)) with amount coupon/freq*face |
| RiskBond.Schedule | risk_engine_cpp/src/Bond.cpp:5-11 | exactly tenor * freq cash flows |
| RiskBond.ScheduleAt | risk_engine_cpp/src/Bond.cpp:5-11 | flow k falls on day int(365.0/freq*(k+1)) and pays coupon/freq*face, the last one plus face |
| RiskBond.Cashflows | risk_engine_cpp/src/Bond.cpp:5-11 | the loop and the back() update build exactly Schedule |
| RiskBond.PaymentDaysNonDecreasing | risk_engine_cpp/src/Bond.cpp:8-9 | with a positive frequency the payment days never decrease |
| RiskBond.LastPaymentAtMaturity | risk_engine_cpp/src/Bond.cpp:6-9 | the last payment is on day 365 * tenor |
| RiskBond.PresentValueStep | risk_engine_cpp/src/Bond.cpp:13 | each loop step adds one discounted amount |
| RiskBond.Npv | risk_engine_cpp/src/Bond.cpp:12-15 | the accumulation computes Σ amount * discountFactor(days) over the schedule |
| RiskBond.PresentValueSign | risk_engine_cpp/src/Bond.cpp:12-15 | non-negative amounts on a positive curve give a PV >= 0, and > 0 when the last amount is positive |
| RiskBond.NpvPositive | risk_engine_cpp/tests/test_simple.cpp:5 | a bond with a non-negative coupon and positive frequency has a positive NPV on a positive curve |
| RiskBond.TestCasePvPositive | risk_engine_cpp/tests/test_simple.cpp:5 | the test's one-year 5% bond has a positive NPV on its curve |
| RiskBond.DiscountedBumped | risk_engine_cpp/src/Bond.cpp:13 | each discounted flow scales by the bump factor |
| RiskBond.PresentValueBumped | risk_engine_cpp/src/Bond.cpp:12-15 | the NPV on a bumped curve is the base NPV times the bump factor |
| RiskEngine.Calc | risk_engine_cpp/src/RiskEngine.cpp:7 | the lambda computes the sum of the bonds' NPVs |
| RiskEngine.BumpPriceable | risk_engine_cpp/src/RiskEngine.cpp:8-10 | a bumped curve can price whatever the base curve can |
| RiskEngine.Run | risk_engine_cpp/src/RiskEngine.cpp:6-14 | the run computes Evaluate: base PV, shocked PV, dv01 = (pv(down) - pv(up))/2, convexity = pv(up) + pv(down) - 2 * pv_base |
| RiskEngine.PortfolioBumped | risk_engine_cpp/src/RiskEngine.cpp:7-9 | the portfolio value on a bumped curve is the base value times the bump factor |
| RiskEngine.PortfolioPositive | risk_engine_cpp/src/RiskEngine.cpp:7 | a non-empty portfolio of such bonds has a positive value on a positive curve |
| RiskEngine.EvaluateEmpty | risk_engine_cpp/src/RiskEngine.cpp:7-13 | an empty portfolio gives zero for every PV, dv01 and convexity |
| RiskEngine.EvaluateZeroShift | risk_engine_cpp/src/RiskEngine.cpp:8-9 | a zero shift gives pv_shocked == pv_base |
| RiskEngine.EvaluateScales | risk_engine_cpp/src/RiskEngine.cpp:8-13 | the name is the scenario's; pv_shocked is pv_base times exp(-shift * 1e-4); convexity is pv_base times (f(+1) + f(-1) - 2) |
| RiskEngine.EvaluateDv01Positive | risk_engine_cpp/src/RiskEngine.cpp:10-11 | a portfolio of positive value has a positive dv01 |

## Left out

- Data loading, downloads, CSV reading and writing, printing, plotting and every `main`/`__main__` driver are not modelled: they are I/O.
- The machine-learning and statistical fitting around the cores are not part of this model: XGBoost, feature engineering, GARCH, OLS, cvxpy, and the Nelson-Siegel fit and SARIMAX forecast of `yield_curve.py`.
- `yield_curve.py`'s zero rates `disc ** (-1 / tenors) - 1` are not modelled: they need a real power.
- `price_caplet`, `greeks`, `n_pdf` and `n_cdf` of `derivatives_pricer.cpp` are not modelled: they are transcendental analytics (`erfc`, `sqrt`, `log`).
- IEEE floating point is not modelled: all prices are exact reals. Rounding, overflow to infinity and NaN from a division by zero are outside the model. Operations that divide require a non-zero divisor or return `None`.
- C++ `int` overflow of `tenor_y_ * freq_` and of day counts is not modelled: integers are unbounded.
- `random.random()` is the `coin` input of each bar; its distribution is not modelled.
- Backtester.Backtest.Step: requires bars whose signal is in {-1, 0, 1}, whose prices are positive and whose volatility is non-negative. With a zero entry price the source would raise `ZeroDivisionError`, and that error is not modelled. It also requires a non-negative `ATR_MULTIPLIER`, which the source does not check. A negative multiplier puts a long's trigger above the close and a short's below, and can make a short's trigger zero or negative.
- Backtester: `backtester.py:77` and `:128` read `Realized_Vol_6` from the 1-minute frame at the position of the loop over the bar frame. The model puts that value into each bar, so it does not capture the pairing of two different frames by position. It also does not model the `IndexError` the source raises when a fill or an acted-on signal falls at a position past the end of the 1-minute frame. `:128` runs on every acted-on signal, so that error occurs even with `ATR_MULTIPLIER == 0`.
- Backtester.RunInv: wins + losses + ambiguous == len(trades) over a whole run is proved only for fixed-fraction levels. ATR levels `entry ∓ Rolling_TR * multiplier` can be 0.0 for some bars, and an exit there is counted without a trade. For those configurations `Backtester.StepUnbooked` states, bar by bar, that the balance changes only at such an exit.
- Backtester: `Rolling_TR` is a number on every bar. The NaN it holds in its warm-up rows is not modelled. With both ATR multipliers set, a fill on such a bar gives NaN levels, every comparison with them is false, and as written a coin below one half closes at a NaN target.
- Backtester: `lowest_equity_in_trade`, `atr` and `vol_at_entry` are assigned but never read for a decision. They are carried as fields, or read from the bar, without further properties.
- The backtester's trade dicts carry no `entry_balance`, so `evaluate_trades` is modelled separately on records with `pnl` and `entry_balance`. A trade dict missing a key (`KeyError`) is not modelled.
- EvaluateTrades.Annualize: `np.sqrt` is a parameter obeying `IsSqrt`, so the annualised ratio's value is not pinned down; only its NaN cases are stated.
- VolCooling.Positions: the 30% and 70% quantiles of the rolling sums are inputs (`q30`, `q70`); pandas' quantile interpolation is not modelled.
- The function works on `df.copy()`, so the caller's frame is untouched. The model is a pure function, so that property holds by construction and is not a separate lemma.
- SyncFrames: datetime parsing and the two `sort_values` calls are not modelled. The model starts from the sorted frames, and its lemmas assume sorted 1-minute times.
- SignalFilters.SignalFilter.FilterSignals: the `parallelStream` scheduling and the logger are not modelled. Only the sequential, order-preserving map is.
- DerivativesPricer: a file that cannot be opened is not modelled, and neither are `istringstream` number parsing and `ss` failure states. Parsing is the `scan` parameter.
- DerivativesPricer: the loader is modelled on containers that start empty, as `main` passes them.
- DerivativesPricer.Lookup: `load_market_file` keeps the file's order of maturities, and `std::upper_bound` on an unsorted range has no defined result. The lookup lemmas therefore require sorted maturities (`Readable`), and a file with unsorted maturities is not modelled.
- RiskCurve.ZeroRate: at day 0 the source divides by zero (infinity or NaN); the model returns `None` there.
- RiskCurve.DiscountFactor, RiskBond.Npv and RiskEngine.Run: reading an empty curve is undefined behaviour in the source, so the model requires a non-empty curve whenever a bond is priced.
- RiskBond.Cashflows: a bond with no payment (`v.back()` on an empty vector) is undefined behaviour in the source, so the model requires at least one period.
- The day `int(365.0/freq*i)` is computed exactly on reals and then truncated. Under IEEE rounding the last day may differ from `365 * tenor`.
- The `Instrument` interface has one implementation, `Bond`, so the portfolio is a sequence of bonds. Virtual dispatch and `shared_ptr` ownership are not modelled.
- The reference-member lifetime of `RiskEngine::baseCurve_` is not modelled.
- `include/Scenario.hpp` is not part of this model. Its fields `name` and `parallelShift_bp` are taken from their uses in `src/RiskEngine.cpp` and `src/main.cpp`.

## Findings

| source | as written | input that shows it | evidently intended | confidence | as-written member | corrected member |
|---|---|---|---|---|---|---|
| signal-generator-lasso-xgb/backtester.py:51 | `target if random.random() < 0.5 else stop if ambiguous else None` groups as `target if coin < 0.5 else (stop if ambiguous else None)`, so any held bar exits at the target on a coin below one half | a long with stop 99 and target 102 on a bar with low 100.4 and high 100.5, coin 0.25: the exit is 102 and it counts as ambiguous | pick target or stop by the coin only on an ambiguous bar, and give no exit otherwise | not executed; high (the function's name and the callers' fall-through to the stop and target tests) | Backtester.AsWrittenSettlesUntouchedBar | Backtester.CorrectedExitsAtTouchedLevel |
| signal-generator-lasso-xgb/backtester.py:130-137 | with `ATR_MULTIPLIER == 0` an immediate entry never sets `stop_price`/`target_price`, which stay `None` | any signal bar with `ATR_MULTIPLIER = 0`: the next bar compares a price with `None` and raises `TypeError` | set the levels on an immediate entry as on a triggered one (`:84-89`) | not executed; high | Backtester.AsWrittenImmediateEntryRaises | Backtester.CorrectedNeverRaises |
| interest-rate-swap-pricer/swap_pricer.py:39-44 | bills get coupon 0 and are then priced by the par formula `(1 - 0) / (1 + 0)`, so the 3M and 6M factors are exactly 1 | any par yields, for example 5% at every tenor: disc at 3M and 6M is 1.0 | discount each bill at its simple yield, `1 / (1 + y * T)`, as the first tenor is | not executed; medium | SwapPricer.AsWrittenBillsAtPar | ParBootstrap.CorrectedBillDiscounts |
| yield-curve-model/yield_curve.py:42-47 | the same recurrence with bills up to one year, so the 3M, 6M and 1Y factors are exactly 1 | any par yields, for example 5% at every tenor: disc at 3M, 6M and 1Y is 1.0 | discount each bill at its simple yield | not executed; medium | YieldCurve.AsWrittenBillsAtPar | ParBootstrap.CorrectedBillDiscounts |
