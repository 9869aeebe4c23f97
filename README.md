# Five-candle signal validation, modelled in Dafny

The system trades short binary options. It watches OHLC candles for five
candles of the same colour in a row. Five green candles signal a reversal
down, so it buys a put. Five red candles signal a reversal up, so it buys a
call. `should_trade` admits a signal only when a backtest over recent history
shows a win rate of at least the minimum (60% by default) and the signal's own
confidence is at least 60. The live trading loop (app.py:231-241) asks for a
pattern detected on the last six candles and a backtest win rate of at least
60 on the last 100 candles, but does not gate on the signal's confidence;
app.py is not part of this model. This project models the validation core:

- `candles.dfy` (module `Candles`) holds the candle record, the candle colour,
  the two pattern kinds with their names, the trade directions, and
  `Option`/`Result`.
- `strategy.dfy` (module `Strategy`) covers the `TradingStrategy` methods:
  - pattern detection and its confidence score;
  - the direction lookup and the three-way trade gate;
  - half-Kelly position sizing;
  - the market-condition summary (trend, volatility, strength).
- `backtest.dfy` (module `Backtest`) covers the `BacktestEngine` methods:
  - the walk-forward backtest with balance, peak and drawdown;
  - the per-pattern performance counters;
  - the counting-only backtest at a given confidence threshold;
  - the sweep over the thresholds 50, 60, 70 and 80;
  - the approval verdict of the report.

The loops of the source that scan candles are `method`s with the same loops.
The final win-rate pass of `analyze_pattern_performance` (backtest.py:180-184)
is written as a two-entry map display instead of a loop. Each method is proved
equal to a reference function:

| method | reference function |
|---|---|
| `DetectPattern` | `DetectSpec` |
| `CalculateConfidence` | `Confidence` |
| `RunBacktest` | `BacktestSpec`, a fold `Walk` over the window |
| `BacktestWithConfidence` | `ThresholdSpec`, built from the counter `Count` |
| `AnalyzePatternPerformance` | `PatternStatsSpec` |

The lemmas then state what the source promises about those functions. The
sweep of `optimize_parameters` over its four thresholds is also a method with
the source's loop; its contract names the first best candidate directly. The
other operations contain no loop and are pure functions.

The detector's verdict at every index of a series is computed once, in
`Signals`. The loops read each verdict through `DetectAtIndex`. That helper
runs the detector on the last five of the first i+1 candles, exactly as each
scan in the source does.

Where the code and its documentation differ, the model follows the code:

- A simulated trade needs a balance of at least 50, the fixed stake.
- Trend strength is measured against the close 19 bars before the last one
  (`iloc[-20]`).
- The insufficient-data backtest result has no final balance. Rendering the
  report therefore fails on it with a missing `final_balance` key.
  `ReportVerdict` returns that failure.
- `run_backtest` visits indices 5 through len−1 and skips the last index,
  which has no next candle. The per-pattern and per-threshold scans stop one
  index earlier.
- The lookback must be positive. A lookback of 0 would slice the whole
  series in Python rather than an empty window, and is excluded.

## Model

| member | source | states |
|---|---|---|
| Candles.ColorOf | strategy.py:29-34 | a candle is green when it closed above its open, red when below, and a doji when it closed at its open; DetectSpecCharacterized and DojiBlocksPattern state what the detector makes of each colour |
| Strategy.CandleScore | strategy.py:62-71 | a candle's score is in [0, 100]; it is 50 when the high–low range is not positive, and 100 when the body covers the whole range |
| Strategy.ScoreSum | strategy.py:62-73 | the running total of the per-candle scores lies in [0, 100·n] for n candles; UniformScoreSum gives the total when every candle scores the same |
| Strategy.Boost | strategy.py:77-79 | averages up to 70 pass unchanged; averages above 70 are raised, stay above 70 and are capped at 100 |
| Strategy.Confidence | strategy.py:57-79 | the confidence of any window, including the empty one, is in [0, 100] |
| Strategy.CalculateConfidence | strategy.py:47-81 | the one-pass accumulation loop returns the boosted average score of the window, which lies in [0, 100] |
| Strategy.FlatWindowScoresFifty | strategy.py:67-79 | a non-empty window whose candles all have a non-positive range has confidence exactly 50 (default score, no boost) |
| Strategy.UniformScoreSum | strategy.py:62-75 | when every candle scores s, the total is s times the number of candles |
| Strategy.DetectSpec | strategy.py:20-45 | a pattern is reported exactly when a kind is given; no pattern means (false, None, 0.0); the confidence is in [0, 100] |
| Strategy.DetectFive | strategy.py:26-45 | on five candles: the same three facts as DetectSpec |
| Strategy.OneDistinctColor | strategy.py:37 | the colour list holds one distinct value exactly when every colour equals the first |
| Strategy.DetectPattern | strategy.py:10-45 | the colouring loop and set test give the reference detection for every input, including fewer than five candles |
| Strategy.DetectSpecCharacterized | strategy.py:20-45 | five green is reported iff each of the last five candles closed above its open; five red iff each closed below; a detected pattern is scored on the last five candles; otherwise the result is (false, None, 0.0) |
| Strategy.DetectIgnoresHistory | strategy.py:23-24 | candles before the last five never change the detection |
| Strategy.ShortListNoPattern | strategy.py:20-21 | fewer than five candles give (false, None, 0.0) |
| Strategy.DojiBlocksPattern | strategy.py:28-37 | a doji among the last five candles rules out any pattern |
| Strategy.SampleIsFiveGreenAtFifty | strategy.py:10-45 | five rising candles with half-range bodies are detected as five green with confidence 50 |
| Strategy.TradeDirection | strategy.py:83-98 | the direction is put exactly for "5_green"; every other name, including unknown ones, gives call |
| Strategy.Reversal | strategy.py:93-96 | each detected kind trades the direction its name looks up, put exactly for five green |
| Strategy.ShouldTrade | strategy.py:100-126 | trade iff at least five candles are present, the last five are all green or all red, the backtest win rate reaches the minimum, and the confidence of the last five is at least 60 |
| Strategy.OptimalTradeAmount | strategy.py:185-229 | 0 when the balance or the win rate is not positive; otherwise between min(1, balance) and the balance, never above max(risk cap, 1); exactly min(1, balance) when half-Kelly is not positive |
| Strategy.HalfKelly | strategy.py:202-217 | half of the Kelly fraction (0.8p − (1 − p))/0.8 at an 80% payout is (1.8·w − 100)/160 for a win rate of w percent, and lies in [−0.625, 0.5] for a win rate in [0, 100] |
| Strategy.KellyStakeInRange | strategy.py:198-229 | when half-Kelly of a positive balance lies between 1 and both the risk cap and the balance, the recommended stake is exactly that half-Kelly amount |
| Strategy.RiskCapBinds | strategy.py:220-229 | when the half-Kelly amount reaches the risk cap and the cap lies between 1 and the balance, the recommended stake is the cap |
| Strategy.KeptStake | strategy.py:217-229 | a half-Kelly stake between 1 and both the risk cap and the balance is what capping, flooring and the balance limit return |
| Strategy.PositiveKelly | strategy.py:217-221 | a half-Kelly stake of at least 1 on a positive balance comes from a positive fraction, so the floor at 0 leaves it alone |
| Strategy.CappedStake | strategy.py:220-229 | a half-Kelly stake at or over a cap between 1 and the balance comes out as the cap |
| Strategy.KellyBreakEven | strategy.py:202-217 | the half-Kelly fraction at 80% payout is non-positive exactly when win rate × 1.8 ≤ 100 |
| Strategy.AmountMonotoneInWinRate | strategy.py:185-229 | a higher win rate never recommends a smaller stake, for every balance and risk percentage |
| Strategy.StakeMonotone | strategy.py:198-229 | the same monotonicity for a positive balance and positive win rates |
| Strategy.ClampedStakeMonotone | strategy.py:220-229 | capping at the risk limit, flooring at 1 and limiting to the balance keep the order of two Kelly stakes |
| Strategy.KellyFractionMonotone | strategy.py:202-221 | the half-Kelly fraction floored at 0 does not fall as the win rate rises |
| Strategy.ClampMonotone | strategy.py:224-229 | the cap, floor and balance limit are monotone |
| Strategy.SizingExample | strategy.py:185-229 | a balance of 1000 at 65% and 2% risk stakes 20 (the cap binds); a zero balance or a zero win rate stakes 0 |
| Strategy.Sma | strategy.py:144-145 | the mean close of the last n candles; SmaWithin bounds it by the closes it averages |
| Strategy.SmaWithin | strategy.py:144-145 | the n-candle moving average of the close lies between any lower and upper bound of the last n closes |
| Strategy.TrueRange | strategy.py:159-162 | a true range is at least the high–low range and at least both gaps between the high or low and the previous close, and is one of those three; the first candle's is its high–low range |
| Strategy.Atr | strategy.py:164 | with more than 14 candles the 14-period average true range is non-negative |
| Strategy.TrueRangeSum | strategy.py:158-163 | the summed true ranges of candles that have a previous close are non-negative |
| Strategy.Strength | strategy.py:174-175 | strength is in [0, 100] and is 0 when the price did not move |
| Strategy.AnalyzeMarketCondition | strategy.py:128-183 | below 20 candles: unknown trend and volatility with strength 0; otherwise bullish/bearish/sideways iff SMA5 is above/below/equal to SMA20, the ATR is non-negative, volatility is high iff the ATR exceeds 0.2% of the last close and medium iff it lies in (0.1%, 0.2%], and strength is the capped move against the close at `iloc[-20]` |
| Backtest.SignalsAt | backtest.py:47-53 | the signal at index i is the detection on the five candles ending at i |
| Backtest.WindowEndingAt | backtest.py:48-52 | the last five of the first i+1 candles are the five candles ending at i |
| Backtest.SignalOfPrefix | backtest.py:48-53 | the detector run on the last five of the first i+1 candles gives signal i |
| Backtest.DetectAtIndex | backtest.py:48-53 | the detection each scan performs at index i is signal i |
| Backtest.Signals | backtest.py:47-53 | one detection per index of the series, none before index 4; SignalsAt states that entry i is the detection on the five candles ending at i |
| Backtest.Settle | backtest.py:68-74 | a trade settles as a win only if the next close moved (the same rule as backtest.py:168-171 and 243-246) |
| Backtest.SettleOpposite | backtest.py:68-74 | when the next close moved, exactly one of call and put wins; when it did not, neither wins |
| Backtest.WinRate | backtest.py:114 | the win rate is a percentage when wins do not exceed trades, and 0 when nothing traded |
| Backtest.WinRateAtLeastSixty | backtest.py:114 | a win rate of at least 60% holds iff there were trades and at least 3 wins per 5 trades |
| Backtest.DrawdownBounds | backtest.py:86-91 | the drawdown of a balance between 0 and the peak is a fraction in [0, 1] |
| Backtest.Drawdown | backtest.py:89 | the drop from the peak as a fraction of the peak; DrawdownBounds keeps it in [0, 1] for a balance between 0 and the peak |
| Backtest.TakesTrade | backtest.py:55-64 | the walk's gate: a detected pattern, a confidence of at least 60, a balance of at least the stake of 50, and a next candle; StepGate and WalkOpenedIn state its effect |
| Backtest.Trade | backtest.py:60-107 | a trade never lowers the peak balance; TradeHistory and WorstDrop state that the peak stays the highest balance reached and the max drawdown the worst drop from a peak |
| Backtest.Balances | backtest.py:41-107 | the balance history of a walk state: the initial 10000 followed by the balance after each recorded trade |
| Backtest.Highest | backtest.py:86-87 | the highest balance of a non-empty history, at least its first; HighestIsPeak states that it is the peak |
| Backtest.HighestIsPeak | backtest.py:86-87 | Highest is at least every balance of the history and equals one of them |
| Backtest.DeepestDropTo | backtest.py:89 | the deepest drop from any positive balance of a history down to a given balance, 0 when there is none; DeepestDropToIsDeepest states that it bounds and is reached |
| Backtest.DeepestDropToIsDeepest | backtest.py:89 | no positive balance drops to x by more than DeepestDropTo, and a positive drop is reached from some balance |
| Backtest.WorstDropIn | backtest.py:88-91 | the worst drop from a positive balance to the same or a later one, never negative; WorstDropInIsWorst states that it bounds and is reached |
| Backtest.WorstDropInBounds | backtest.py:88-91 | no drop from a positive balance to the same or a later one exceeds WorstDropIn |
| Backtest.WorstDropInReached | backtest.py:88-91 | when the first balance is positive, some pair of balances j ≤ k drops by exactly WorstDropIn |
| Backtest.WorstDropInIsWorst | backtest.py:88-91 | WorstDropIn is the largest drop over all pairs j ≤ k from a positive balance, and some pair reaches it |
| Backtest.DropBelowPeak | backtest.py:86-89 | measured from a higher positive peak, the drop down to a non-negative balance is at least as deep |
| Backtest.DrawdownSign | backtest.py:89 | the drop from a positive peak is negative above the peak and non-negative at or below it |
| Backtest.DeepestDropFromPeak | backtest.py:86-89 | the deepest drop of a history down to a non-negative balance is the drop from its highest balance, or 0 |
| Backtest.HistoryStep | backtest.py:86-91 | appending a balance raises the peak to it when it is higher, and raises the worst drop to the drop from the new peak when that is deeper: the source's two updates |
| Backtest.TradeBalances | backtest.py:60-107 | a trade appends its new balance to the balance history |
| Backtest.TradeHistory | backtest.py:86-91 | when the peak and max drawdown describe the history before a trade, they describe it after the trade |
| Backtest.StartHistory | backtest.py:41-44 | before any trade the peak is the initial 10000 and the max drawdown 0, matching the one-balance history |
| Backtest.StepHistory | backtest.py:86-91 | one loop iteration keeps the peak the highest balance of the history and the max drawdown its worst drop |
| Backtest.WorstDrop | backtest.py:86-91 | in every walk state the peak is the highest balance reached and the max drawdown the worst drop of the balance history |
| Backtest.PeakAndWorstDrop | backtest.py:86-91 | the same over pairs: the peak bounds and equals some balance; the max drawdown bounds every drop from a positive balance to a later one and is reached by some pair |
| Backtest.BacktestDrawdown | backtest.py:86-133 | the reported max drawdown is 100 times the worst drop of the window's balance history, a drop some pair of balances reaches, and the walk's peak is the highest of those balances |
| Backtest.SpecIsSummary | backtest.py:12-137 | with at least lookback candles, the result is the summary of the walk over the trailing lookback candles |
| Backtest.WholeWalkCounts | backtest.py:55-83 | for a window of at most 206 candles, the whole walk's trades and wins are the counting-only scan's counts at 60 |
| Backtest.Step | backtest.py:55-107 | one loop iteration never lowers the peak balance |
| Backtest.StepGate | backtest.py:55-107 | an index whose detected pattern has confidence at least 60, with a balance of at least 50 and a next candle, adds exactly one trade on that pattern and confidence, paid from the balance, keeping the earlier trades; any other index leaves the state unchanged |
| Backtest.Walk | backtest.py:41-107 | the peak never drops below the initial 10000 |
| Backtest.TradeSound | backtest.py:58-107 | a trade keeps the walk invariant: peak ≥ 10000, 0 ≤ balance ≤ peak, drawdown in [0, 1], and every record settled with stake 50, reversal direction, confidence ≥ 60, pnl +40/−50 and a balance not above the peak |
| Backtest.TradeOpenedIn | backtest.py:64-66 | a new record is opened at a window candle that has a successor, and settles on that successor's close |
| Backtest.WalkSound | backtest.py:47-107 | every state the walk reaches satisfies that invariant |
| Backtest.WalkOpenedIn | backtest.py:47-107 | every recorded trade was opened at an index from 5 up to len−2 where the detector reported its pattern with its confidence, was funded by a balance of at least 50, and settles on the next close |
| Backtest.BalanceAccounts | backtest.py:77-83 | the balance equals 10000 + 40 per win − 50 per loss |
| Backtest.WalkOnlyGrows | backtest.py:86-107 | later in the walk the peak and the worst drawdown are no smaller, and the earlier trades are a prefix of the later ones |
| Backtest.LastCandleNeverTrades | backtest.py:64 | visiting the window's last index changes nothing |
| Backtest.WinCount | backtest.py:111 | the number of wins never exceeds the number of trades |
| Backtest.Tail | backtest.py:136 | the details are the last min(10, trades) trades, in order |
| Backtest.TailSettled | backtest.py:136 | the kept details are settled trades |
| Backtest.Summarize | backtest.py:109-137 | the summary counts every recorded trade, wins plus losses make the total, the final balance is the walk's balance with the profit measured from 10000, and the details are the last at most 10 trades |
| Backtest.WalkTradesBounded | backtest.py:47-107 | after visiting the first n indices the walk holds at most n − 5 trades (none before index 5) |
| Backtest.TradesFitWindow | backtest.py:47-107 | a window of n candles yields at most n − 6 trades, since the last index never trades |
| Backtest.BacktestSpec | backtest.py:25-137 | the reference backtest has no final balance exactly when there are fewer candles than the lookback, and then is the all-zero result; it never reports more than lookback − 6 trades |
| Backtest.SummaryFacts | backtest.py:109-137 | the summary of a sound final state is a sound result with a final balance |
| Backtest.BacktestResultFacts | backtest.py:25-137 | every result: wins + losses = trades; the win rate and drawdown are percentages; the win rate is 0 without trades; at most the last 10 trades are kept, all settled; the final balance is 10000 + 40·wins − 50·losses, never negative, with the profit measured from 10000; the insufficient-data result comes exactly from fewer candles than the lookback; otherwise a final balance is reported |
| Backtest.RunBacktest | backtest.py:12-137 | the loop over the trailing window, with its balance check, last-index guard, peak/drawdown tracking, record list and win count, returns the reference backtest of the candles |
| Backtest.WalkIteration | backtest.py:47-107 | one pass of the loop body (detect on the five candles ending at i, the confidence, balance and last-index gates, and the trade) produces exactly Step's state |
| Backtest.SettleTrade | backtest.py:60-107 | settling one admitted signal (outcome on the next close, payout or stake, peak and drawdown updates, the appended record) produces exactly Trade's state |
| Backtest.WalkNext | backtest.py:47 | each loop index moves the walk's state by one Step from a state whose peak is at least 10000 |
| Backtest.WalkEnd | backtest.py:47 | where the loop over range(5, len) stops, including when the window has at most five candles, the walk has reached its final state |
| Backtest.Report | backtest.py:109-137 | the statistics computed after the loop are exactly the summary of the final state |
| Backtest.ReportIsSpec | backtest.py:12-137 | the summary of the whole walk over the trailing window is the reference backtest result |
| Backtest.CountWins | backtest.py:111 | the one-pass count equals the number of winning records |
| Backtest.TickAddsUp | backtest.py:173-177 | at one index, wins ≤ trades, the two patterns' trades make up all trades, and a pattern's trades are its wins plus its losses |
| Backtest.OutcomeAt | backtest.py:162-171 | the signal a counting scan sees at index i: the detected pattern if its confidence reaches the threshold, settled on the next close; Count and CountsAddUp state what the scans make of it |
| Backtest.Count | backtest.py:228-249 | a counter over the first n indices of the scan counts at most n − 5 signals |
| Backtest.CountsAddUp | backtest.py:173-177 | over any prefix of the scan: wins ≤ trades, green trades + red trades = all trades, and each pattern's trades = its wins + its losses |
| Backtest.CountAntitone | backtest.py:235 | raising the threshold never increases any counter |
| Backtest.ThresholdSpecBounds | backtest.py:251-257 | the counting-only result has wins ≤ trades and a win rate in [0, 100] that is 0 without trades |
| Backtest.ThresholdMonotone | backtest.py:221-257 | a stricter threshold never yields more trades or more wins |
| Backtest.WalkMatchesCount | backtest.py:55-83 | up to index 204 the balance always covers the stake, so the walk's trades and wins are exactly the counting-only scan's counts at 60 |
| Backtest.BacktestAgreesWithThreshold | backtest.py:12-137 | for a lookback of at most 206 candles (app.py:239 runs `run_backtest(candles[-100:], strategy)` with the default lookback of 100), the walk-forward backtest reports the same trades, wins and win rate as the counting-only backtest at 60 on the same window |
| Backtest.ThresholdSpec | backtest.py:221-257 | the counting-only result never reports more trades than the indices the scan visits |
| Backtest.BacktestWithConfidence | backtest.py:221-257 | the loop over range(5, len−1) returns the reference count of trades and wins at the threshold, with wins ≤ trades and a win rate in [0, 100] |
| Backtest.Record | backtest.py:173-177 | recording an outcome keeps both pattern entries |
| Backtest.Bump | backtest.py:173-177 | recording an outcome adds one to the total and one to the wins exactly when the trade won, and keeps total = wins + losses |
| Backtest.PatternCounters | backtest.py:149-177 | the counter dictionary always holds both patterns |
| Backtest.PatternCountersCount | backtest.py:155-177 | each pattern's entry holds that pattern's trade, win and loss counts at the default gate |
| Backtest.StatsOf | backtest.py:179-184 | the statistics hold exactly the keys five green and five red |
| Backtest.WithWinRate | backtest.py:180-184 | the win rate is added without changing the counts; it is a percentage when wins do not exceed the total, and 0 when the total is 0 |
| Backtest.WithWinRateEntry | backtest.py:180-184 | a counter whose wins and losses add up gets the percentage of wins as its win rate |
| Backtest.CountersEntry | backtest.py:173-184 | each pattern's entry reports that pattern's trades and wins with its win rate |
| Backtest.TotalsAddUp | backtest.py:173-177 | after any prefix of the scan, the totals of the two patterns add up to all trades that passed the gate |
| Backtest.StatsOfCounters | backtest.py:149-186 | after any prefix of the scan, each entry counts exactly its pattern's trades and wins, and the two totals make up all trades that passed the gate |
| Backtest.PatternStatsFacts | backtest.py:139-186 | over the whole scan: both patterns are present; each entry's total, wins, losses and win rate agree with its pattern's counts; the two totals equal the trades of the counting-only backtest at 60 |
| Backtest.PatternStatsSpec | backtest.py:139-186 | the reference statistics always hold exactly the keys five green and five red |
| Backtest.AnalyzePatternPerformance | backtest.py:139-186 | the in-place dictionary updates along the scan, followed by the win-rate pass, return the reference per-pattern statistics |
| Backtest.SweepStep | backtest.py:211-217 | a strictly higher rate takes over as the incumbent; an equal or lower one leaves it |
| Backtest.OptimizeParameters | backtest.py:188-219 | no parameters are returned iff every candidate's win rate is 0; otherwise the result is the first candidate with the highest (positive) win rate, with its rate and trade count |
| Backtest.ReportVerdict | backtest.py:284-301 | a result without a final balance cannot be rendered (missing key); otherwise the strategy is approved, with the approval sentence, exactly when the win rate is at least 60 |
| Backtest.ApprovalMeansThreeInFive | backtest.py:284-301 | with fewer candles than the lookback the report fails; otherwise it approves exactly when there were trades and at least three wins per five trades |

## Left out

- CalculateConfidence: the final `round(average, 1)` (strategy.py:81) is not modelled. Confidence is an exact real, so the ≥ 60 gates compare the unrounded value. An average in [59.95, 60) passes in the source but not in the model.
- RunBacktest: the rounding of the win rate, profit, drawdown and final balance to two places (backtest.py:131-135) is not modelled. Nor is the Sharpe ratio (backtest.py:119-125), which needs a square root over floating point. `BacktestResult` has no Sharpe field.
- AnalyzePatternPerformance: the win rates are not rounded to two places (backtest.py:184).
- AnalyzePatternPerformance: the final win-rate pass (backtest.py:180-184) is a map display of the two entries, not a loop; its two iterations are independent of each other.
- BacktestWithConfidence: the win rate is not rounded to two places (backtest.py:256).
- OptimizeParameters: the sweep compares unrounded win rates, so ties that rounding would create are not reproduced. The empty dictionary returned when no rate is positive is `None`.
- ReportVerdict: the source compares the win rate after rounding it to two places (backtest.py:131, 290). The model compares the exact rate, so for example 2401 wins in 4002 trades (59.995…%) is approved by the source but not by the model. A window needs at least 4008 candles for that many trades.
- RunBacktest: the lookback is a `nat`, so negative lookbacks are not modelled. In Python they would drop candles from the front of the series instead. The one caller, app.py:239, passes the default of 100.
- OptimalTradeAmount: the rounding of the recommended amount to two places (strategy.py:227) is not modelled.
- AnalyzeMarketCondition: the rounding of strength and ATR is not modelled.
  - With a zero close at `iloc[-20]` and no move, pandas gives NaN; the model gives 0.
  - A move away from a zero close is infinite in pandas, capped at 100; the model gives 100 directly.
  - `TrueRange` of the window's first candle uses its high–low range alone, matching pandas' skipping of NaN neighbours in the row maximum.
- Floating point: all prices and balances are exact reals. Overflow, NaN and binary rounding are not modelled.
- The candle's volume field is never read by the core and is not kept.
- `TradingStrategy` and `BacktestEngine` have no fields that these operations update, so the model uses module-level functions and methods, not classes. The `strategy` argument of `run_backtest` is the one strategy of the model.
- Report layout: only the validation verdict and the recommendation sentence of `generate_backtest_report` are modelled, not the formatted text.
- The `__main__` demonstration blocks and their random sample-candle generator are not modelled; they use a random source.
- app.py, dashboard.py, database.py and quotex_client.py (web server, dashboard, persistence and broker client) are not part of this model.
