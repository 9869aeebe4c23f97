/** The backtest engine: the walk-forward simulation that validates the
    strategy, its per-pattern and per-threshold counting variants, the
    threshold sweep and the report's approval verdict. */
module Backtest {
  import opened Candles
  import opened Strategy

  const InitialBalance: real := 10000.0

  /** Fixed stake of every simulated trade. */
  const TradeAmount: real := 50.0

  /** A winning option pays 80% of the stake. */
  const Payout: real := 0.8

  /** How many of the latest trade records the result carries. */
  const DetailsKept: nat := 10

  /** Win rate the report requires for approval. */
  const ApprovalWinRate: real := 60.0

  datatype TradeRecord = TradeRecord(
    timestamp: int,
    pattern: PatternKind,
    direction: Direction,
    amount: real,
    confidence: real,
    win: bool,
    profitLoss: real,
    balance: real,
    entryPrice: real,
    exitPrice: real)

  /** Summary of one backtest. The result for insufficient data has no final
      balance. The Sharpe ratio is not part of this model. */
  datatype BacktestResult = BacktestResult(
    totalTrades: nat,
    winningTrades: nat,
    losingTrades: nat,
    winRate: real,
    profitLoss: real,
    maxDrawdown: real,
    finalBalance: Option<real>,
    details: seq<TradeRecord>)

  const InsufficientData := BacktestResult(0, 0, 0, 0.0, 0.0, 0.0, None, [])

  // ---------------------------------------------------------------------------
  // Signals and settlement
  // ---------------------------------------------------------------------------

  /** Detection over the five candles that end at index i. */
  function SignalAt(c: seq<Candle>, i: nat): Detection
    requires 4 <= i < |c|
  {
    DetectFive(c[i - 4..i + 1])
  }

  /** The last five of the first i+1 candles are the five ending at i. */
  lemma WindowEndingAt(c: seq<Candle>, i: nat)
    requires 4 <= i < |c|
    ensures c[..i + 1][i + 1 - 5..] == c[i - 4..i + 1]
  {
  }

  /** The detector's output at each of the first n indices of c: the
      detection on the five candles ending there, none before index 4. */
  function Signals(c: seq<Candle>, n: nat): (sigs: seq<Detection>)
    requires n <= |c|
    ensures |sigs| == n
  {
    if n == 0 then [] else Signals(c, n - 1) + [if n - 1 >= 4 then SignalAt(c, n - 1) else NoPattern]
  }

  /** Entry i of the signal sequence is the detection at index i, however
      far the sequence extends past it. */
  lemma {:induction false} SignalsAt(c: seq<Candle>, n: nat, i: nat)
    requires 4 <= i < n <= |c|
    ensures Signals(c, n)[i] == SignalAt(c, i)
  {
    if i < n - 1 {
      SignalsAt(c, n - 1, i);
    }
  }

  /** The detector run on the last five of the first i+1 candles gives the
      i-th entry of the signal sequence. */
  lemma SignalOfPrefix(c: seq<Candle>, i: nat)
    requires 4 <= i < |c|
    ensures Signals(c, |c|)[i] == DetectSpec(c[..i + 1][|c[..i + 1]| - 5..])
  {
    SignalsAt(c, |c|, i);
    WindowEndingAt(c, i);
    var window := c[..i + 1][|c[..i + 1]| - 5..];
    assert LastFive(window) == c[i - 4..i + 1];
  }

  /** The detector run, as each scan runs it, on the last five of the
      candles up to and including index i: the i-th signal. */
  method DetectAtIndex(c: seq<Candle>, i: nat) returns (d: Detection)
    requires 4 <= i < |c|
    ensures d == Signals(c, |c|)[i]
  {
    var currentCandles := c[..i + 1];
    d := DetectPattern(currentCandles[|currentCandles| - 5..]);
    SignalOfPrefix(c, i);
  }

  /** An option wins when the next close moved strictly in its direction;
      an unchanged close is a loss either way. */
  function Settle(dir: Direction, entry: real, exit: real): (win: bool)
    ensures exit == entry ==> !win
  {
    if dir == Call then exit > entry else exit < entry
  }

  /** When the close moved, exactly one of the two directions wins; when it
      did not, neither does. */
  lemma SettleOpposite(entry: real, exit: real)
    ensures exit != entry <==> Settle(Call, entry, exit) != Settle(Put, entry, exit)
    ensures exit == entry ==> !Settle(Call, entry, exit) && !Settle(Put, entry, exit)
  {
  }

  /** Percentage of wins, 0 when there were no trades. */
  function WinRate(wins: nat, total: nat): (r: real)
    ensures wins <= total ==> 0.0 <= r <= 100.0
    ensures total == 0 ==> r == 0.0
  {
    if total > 0 then
      RateFraction(wins, total);
      wins as real / total as real * 100.0
    else 0.0
  }

  lemma RateFraction(wins: nat, total: nat)
    requires total > 0
    ensures 0.0 <= wins as real / total as real
    ensures wins <= total ==> wins as real / total as real <= 1.0
  {
    var x := wins as real / total as real;
    assert x * total as real == wins as real;
  }

  /** A win rate of at least 60% means at least three wins in every five
      trades. */
  lemma WinRateAtLeastSixty(wins: nat, total: nat)
    ensures WinRate(wins, total) >= 60.0 <==> total > 0 && 5 * wins >= 3 * total
  {
    if total > 0 {
      var x := wins as real / total as real;
      assert x * total as real == wins as real;
      if x * 100.0 >= 60.0 {
        assert x * total as real >= 0.6 * total as real;
      }
      if 5 * wins >= 3 * total {
        assert x * total as real >= 0.6 * total as real;
        assert x >= 0.6;
      }
    }
  }

  // ---------------------------------------------------------------------------
  // The walk-forward backtest
  // ---------------------------------------------------------------------------

  /** The loop state of the walk: balance, peak balance, worst drawdown as a
      fraction of the peak, and the trades so far. */
  datatype WalkState = WalkState(balance: real, peak: real, maxDrawdown: real, trades: seq<TradeRecord>)

  const Start := WalkState(InitialBalance, InitialBalance, 0.0, [])

  /** What every simulated trade satisfies: a fixed stake, the reversal
      direction of its pattern, a confidence at the gate or above, an outcome
      settled on the exit against the entry, a pnl of +40 or -50, and a
      non-negative balance afterwards. */
  predicate Settled(t: TradeRecord) {
    && t.amount == TradeAmount
    && t.direction == Reversal(t.pattern)
    && t.confidence >= MinConfidence
    && t.win == Settle(t.direction, t.entryPrice, t.exitPrice)
    && t.profitLoss == (if t.win then 40.0 else -50.0)
    && t.balance >= 0.0
  }

  /** The trade was opened at a candle of w that has a successor in w, on
      the pattern the detector reported there with the reported confidence,
      was funded by a balance of at least the stake, and settled on that
      successor's close. */
  ghost predicate OpenedIn(w: seq<Candle>, sigs: seq<Detection>, t: TradeRecord)
    requires |sigs| == |w|
  {
    exists i :: 5 <= i < |w| - 1 && t.timestamp == w[i].timestamp
                && t.entryPrice == w[i].close && t.exitPrice == w[i + 1].close
                && sigs[i].detected && sigs[i].pattern == Some(t.pattern) && sigs[i].confidence == t.confidence
                && t.balance - t.profitLoss >= TradeAmount
  }

  /** The invariant of the walk's state. */
  predicate Sound(s: WalkState) {
    && s.peak >= InitialBalance
    && 0.0 <= s.balance <= s.peak
    && 0.0 <= s.maxDrawdown <= 1.0
    && (forall k :: 0 <= k < |s.trades| ==> Settled(s.trades[k]) && s.trades[k].balance <= s.peak)
  }

  /** Every trade of the state was opened in w. */
  ghost predicate AllOpenedIn(w: seq<Candle>, sigs: seq<Detection>, s: WalkState)
    requires |sigs| == |w|
  {
    forall k :: 0 <= k < |s.trades| ==> OpenedIn(w, sigs, s.trades[k])
  }

  function Drawdown(peak: real, balance: real): real
    requires peak != 0.0
  {
    (peak - balance) / peak
  }

  lemma DrawdownBounds(peak: real, balance: real)
    requires peak > 0.0 && 0.0 <= balance <= peak
    ensures 0.0 <= Drawdown(peak, balance) <= 1.0
  {
    var x := (peak - balance) / peak;
    assert x * peak == peak - balance;
  }

  /** The walk trades at index i when the signal there is a pattern with
      confidence at least 60, the balance covers the stake and a next candle
      exists. */
  predicate TakesTrade(w: seq<Candle>, sigs: seq<Detection>, i: nat, s: WalkState)
    requires 5 <= i < |w| == |sigs|
  {
    var d := sigs[i];
    d.detected && d.pattern.Some? && d.confidence >= MinConfidence && s.balance >= TradeAmount && i < |w| - 1
  }

  /** The state after trading at index i: settle on the next close, move the
      balance by the payout or the stake, raise the peak, widen the worst
      drawdown, and record the trade. */
  function Trade(w: seq<Candle>, sigs: seq<Detection>, i: nat, s: WalkState): (s': WalkState)
    requires 5 <= i < |w| - 1 && |sigs| == |w| && s.peak >= InitialBalance && sigs[i].pattern.Some?
    ensures s.peak <= s'.peak
  {
    var d := sigs[i];
    var kind := d.pattern.value;
    var dir := Reversal(kind);
    var entry := w[i].close;
    var exit := w[i + 1].close;
    var win := Settle(dir, entry, exit);
    var pnl := if win then TradeAmount * Payout else -TradeAmount;
    var balance := s.balance + pnl;
    var peak := if balance > s.peak then balance else s.peak;
    var drawdown := Drawdown(peak, balance);
    var maxDrawdown := if drawdown > s.maxDrawdown then drawdown else s.maxDrawdown;
    var t := TradeRecord(w[i].timestamp, kind, dir, TradeAmount, d.confidence, win, pnl, balance, entry, exit);
    WalkState(balance, peak, maxDrawdown, s.trades + [t])
  }

  /** One iteration of the walk at index i. */
  function Step(w: seq<Candle>, sigs: seq<Detection>, i: nat, s: WalkState): (s': WalkState)
    requires 5 <= i < |w| == |sigs| && s.peak >= InitialBalance
    ensures s.peak <= s'.peak
  {
    if TakesTrade(w, sigs, i, s) then Trade(w, sigs, i, s) else s
  }

  /** The gate of one iteration: a detected pattern with confidence at least
      60, a balance covering the stake and a next candle add one trade on that
      pattern, paid from the balance; anything else leaves the state as it
      is. */
  lemma StepGate(w: seq<Candle>, sigs: seq<Detection>, i: nat, s: WalkState)
    requires 5 <= i < |w| == |sigs| && s.peak >= InitialBalance
    ensures var s' := Step(w, sigs, i, s);
            sigs[i].detected && sigs[i].pattern.Some? && sigs[i].confidence >= MinConfidence
            && s.balance >= TradeAmount && i < |w| - 1
            ==> && |s'.trades| == |s.trades| + 1 && s'.trades[..|s.trades|] == s.trades
                && s'.trades[|s.trades|].pattern == sigs[i].pattern.value
                && s'.trades[|s.trades|].confidence == sigs[i].confidence
                && s'.balance == s'.trades[|s.trades|].balance == s.balance + s'.trades[|s.trades|].profitLoss
    ensures !(sigs[i].detected && sigs[i].pattern.Some? && sigs[i].confidence >= MinConfidence
              && s.balance >= TradeAmount && i < |w| - 1)
            ==> Step(w, sigs, i, s) == s
  {
  }

  /** State after the walk has visited indices 5 .. n-1 of w, driven by the
      signals sigs computed on w. */
  function Walk(w: seq<Candle>, sigs: seq<Detection>, n: nat): (s: WalkState)
    requires (n <= 5 || n <= |w|) && |sigs| == |w|
    ensures s.peak >= InitialBalance
  {
    if n <= 5 then Start else Step(w, sigs, n - 1, Walk(w, sigs, n - 1))
  }

  /** A trade keeps the walk's invariant. */
  lemma TradeSound(w: seq<Candle>, sigs: seq<Detection>, i: nat, s: WalkState)
    requires 5 <= i < |w| == |sigs| && Sound(s) && TakesTrade(w, sigs, i, s)
    ensures Sound(Trade(w, sigs, i, s))
  {
    var s' := Trade(w, sigs, i, s);
    DrawdownBounds(s'.peak, s'.balance);
    assert forall k :: 0 <= k < |s.trades| ==> s'.trades[k] == s.trades[k];
  }

  /** A trade is recorded at the candle it was opened on. */
  lemma TradeOpenedIn(w: seq<Candle>, sigs: seq<Detection>, i: nat, s: WalkState)
    requires 5 <= i < |w| == |sigs| && s.peak >= InitialBalance && TakesTrade(w, sigs, i, s) && AllOpenedIn(w, sigs, s)
    ensures AllOpenedIn(w, sigs, Trade(w, sigs, i, s))
  {
    var s' := Trade(w, sigs, i, s);
    assert OpenedIn(w, sigs, s'.trades[|s'.trades| - 1]);
    assert forall k :: 0 <= k < |s.trades| ==> s'.trades[k] == s.trades[k];
  }

  /** A state computed field by field as the engine does is the state of
      Trade. */
  lemma TradeAgrees(w: seq<Candle>, sigs: seq<Detection>, i: nat, s: WalkState, d: Detection, win: bool,
                    balance: real, peak: real, maxDrawdown: real, t: TradeRecord)
    requires 5 <= i < |w| - 1 && |sigs| == |w| && s.peak >= InitialBalance && d == sigs[i] && d.pattern.Some?
    requires win == Settle(Reversal(d.pattern.value), w[i].close, w[i + 1].close)
    requires balance == s.balance + (if win then TradeAmount * Payout else -TradeAmount)
    requires peak == if balance > s.peak then balance else s.peak
    requires maxDrawdown == if Drawdown(peak, balance) > s.maxDrawdown then Drawdown(peak, balance) else s.maxDrawdown
    requires t == TradeRecord(w[i].timestamp, d.pattern.value, Reversal(d.pattern.value), TradeAmount, d.confidence,
                              win, if win then TradeAmount * Payout else -TradeAmount, balance, w[i].close, w[i + 1].close)
    ensures WalkState(balance, peak, maxDrawdown, s.trades + [t]) == Trade(w, sigs, i, s)
  {
  }

  /** One trade as the engine settles it: the next close decides the
      outcome, the payout or the stake moves the balance, the peak and the
      max drawdown follow, and the record is built. The new state is the
      one Trade gives. */
  method SettleTrade(w: seq<Candle>, ghost sigs: seq<Detection>, i: nat, detection: Detection,
                     ghost trades: seq<TradeRecord>, balance: real, peakBalance: real, maxDrawdown: real)
    returns (newBalance: real, newPeak: real, newMaxDrawdown: real, tradeRecord: TradeRecord)
    requires 5 <= i < |w| - 1 && |sigs| == |w| && peakBalance >= InitialBalance
    requires detection == sigs[i] && detection.pattern.Some?
    ensures WalkState(newBalance, newPeak, newMaxDrawdown, trades + [tradeRecord])
            == Trade(w, sigs, i, WalkState(balance, peakBalance, maxDrawdown, trades))
  {
    ghost var s := WalkState(balance, peakBalance, maxDrawdown, trades);
    var tradeAmount := TradeAmount;
    var patternType := detection.pattern.value;
    var direction := TradeDirection(Name(patternType));
    var nextCandle := w[i + 1];
    var currentCandle := w[i];
    var win := Settle(direction, currentCandle.close, nextCandle.close);
    var profitLoss;
    newBalance := balance;
    if win {
      var payout := tradeAmount * Payout;
      newBalance := newBalance + payout;
      profitLoss := payout;
    } else {
      newBalance := newBalance - tradeAmount;
      profitLoss := -tradeAmount;
    }
    newPeak := peakBalance;
    if newBalance > newPeak {
      newPeak := newBalance;
    }
    var currentDrawdown := Drawdown(newPeak, newBalance);
    newMaxDrawdown := maxDrawdown;
    if currentDrawdown > newMaxDrawdown {
      newMaxDrawdown := currentDrawdown;
    }
    tradeRecord := TradeRecord(currentCandle.timestamp, patternType, direction, tradeAmount,
                               detection.confidence, win, profitLoss, newBalance,
                               currentCandle.close, nextCandle.close);
    TradeAgrees(w, sigs, i, s, detection, win, newBalance, newPeak, newMaxDrawdown, tradeRecord);
  }

  /** Every state the walk reaches satisfies its invariant. */
  lemma {:induction false} WalkSound(w: seq<Candle>, sigs: seq<Detection>, n: nat)
    requires (n <= 5 || n <= |w|) && |sigs| == |w|
    ensures Sound(Walk(w, sigs, n))
  {
    if n > 5 {
      WalkSound(w, sigs, n - 1);
      var s := Walk(w, sigs, n - 1);
      if TakesTrade(w, sigs, n - 1, s) {
        TradeSound(w, sigs, n - 1, s);
      }
    }
  }

  /** Every trade of the walk was opened at a candle of the window that has a
      successor, on the pattern and confidence detected there, funded by the
      balance, and settled on that successor's close. */
  lemma {:induction false} WalkOpenedIn(w: seq<Candle>, sigs: seq<Detection>, n: nat)
    requires (n <= 5 || n <= |w|) && |sigs| == |w|
    ensures AllOpenedIn(w, sigs, Walk(w, sigs, n))
  {
    if n > 5 {
      WalkOpenedIn(w, sigs, n - 1);
      var s := Walk(w, sigs, n - 1);
      if TakesTrade(w, sigs, n - 1, s) {
        TradeOpenedIn(w, sigs, n - 1, s);
      }
    }
  }

  function WinCount(trades: seq<TradeRecord>): (n: nat)
    ensures n <= |trades|
  {
    if |trades| == 0 then 0
    else WinCount(trades[..|trades| - 1]) + (if trades[|trades| - 1].win then 1 else 0)
  }

  /** The last k elements of trades (all of them when there are fewer). */
  function Tail(trades: seq<TradeRecord>, k: nat): (r: seq<TradeRecord>)
    ensures |r| == if |trades| < k then |trades| else k
    ensures forall j :: 0 <= j < |r| ==> r[j] == trades[|trades| - |r| + j]
  {
    if |trades| <= k then trades else trades[|trades| - k..]
  }

  lemma TailSettled(trades: seq<TradeRecord>, k: nat)
    requires forall j :: 0 <= j < |trades| ==> Settled(trades[j])
    ensures forall j :: 0 <= j < |Tail(trades, k)| ==> Settled(Tail(trades, k)[j])
  {
    if |trades| > k {
      var d := |trades| - k;
      forall j | 0 <= j < k
        ensures Settled(trades[d..][j])
      {
        assert trades[d..][j] == trades[d + j];
      }
    }
  }

  /** The result reported for a final walk state: the counters add up, the
      final balance is the state's balance, the profit is measured from the
      initial balance, and the details are the latest trades. */
  function Summarize(s: WalkState): (r: BacktestResult)
    ensures r.totalTrades == |s.trades| && r.winningTrades + r.losingTrades == r.totalTrades
    ensures r.finalBalance == Some(s.balance) && r.profitLoss == s.balance - InitialBalance
    ensures |r.details| <= DetailsKept && |r.details| <= |s.trades|
    ensures r.details == s.trades[|s.trades| - |r.details|..]
  {
    var total := |s.trades|;
    var winning := WinCount(s.trades);
    BacktestResult(total, winning, total - winning, WinRate(winning, total),
                   s.balance - InitialBalance, s.maxDrawdown * 100.0, Some(s.balance),
                   Tail(s.trades, DetailsKept))
  }

  /** Reference definition of the backtest: the walk over the trailing
      lookback candles, summarised; the empty result when there are fewer. */
  function BacktestSpec(candles: seq<Candle>, lookback: nat): (r: BacktestResult)
    requires lookback > 0
    ensures r.finalBalance.None? <==> |candles| < lookback
    ensures |candles| < lookback ==> r == InsufficientData
    ensures r.totalTrades <= if lookback <= 6 then 0 else lookback - 6
  {
    if |candles| < lookback then InsufficientData
    else
      var w := candles[|candles| - lookback..];
      TradesFitWindow(w, Signals(w, |w|));
      Summarize(Walk(w, Signals(w, |w|), |w|))
  }

  /** The walk trades at most once per index it has visited. */
  lemma {:induction false} WalkTradesBounded(w: seq<Candle>, sigs: seq<Detection>, n: nat)
    requires (n <= 5 || n <= |w|) && |sigs| == |w|
    ensures |Walk(w, sigs, n).trades| <= if n <= 5 then 0 else n - 5
  {
    if n > 5 {
      WalkTradesBounded(w, sigs, n - 1);
    }
  }

  /** Trades open at indices 5 .. |w|-2 only, so a window of |w| candles
      yields at most |w| - 6 trades. */
  lemma TradesFitWindow(w: seq<Candle>, sigs: seq<Detection>)
    requires |sigs| == |w|
    ensures |Walk(w, sigs, |w|).trades| <= if |w| <= 6 then 0 else |w| - 6
  {
    if |w| >= 6 {
      LastCandleNeverTrades(w, sigs);
      WalkTradesBounded(w, sigs, |w| - 1);
    } else {
      WalkTradesBounded(w, sigs, |w|);
    }
  }

  /** Every trade moves the balance by +40 or -50, so the balance is the
      initial 10000 plus 40 per win minus 50 per loss. */
  lemma {:induction false} BalanceAccounts(w: seq<Candle>, sigs: seq<Detection>, n: nat)
    requires (n <= 5 || n <= |w|) && |sigs| == |w|
    ensures Walk(w, sigs, n).balance
            == InitialBalance + 40.0 * WinCount(Walk(w, sigs, n).trades) as real
               - 50.0 * (|Walk(w, sigs, n).trades| - WinCount(Walk(w, sigs, n).trades)) as real
  {
    if n > 5 {
      BalanceAccounts(w, sigs, n - 1);
      var s := Walk(w, sigs, n - 1);
      var s' := Walk(w, sigs, n);
      if s'.trades != s.trades {
        assert s'.trades[..|s'.trades| - 1] == s.trades;
      }
    }
  }

  /** The walk only adds: the peak and the worst drawdown never decrease,
      and earlier trades stay as they were. */
  lemma {:induction false} WalkOnlyGrows(w: seq<Candle>, sigs: seq<Detection>, n: nat, m: nat)
    requires n <= m && (m <= 5 || m <= |w|) && |sigs| == |w|
    ensures Walk(w, sigs, n).maxDrawdown <= Walk(w, sigs, m).maxDrawdown
    ensures Walk(w, sigs, n).peak <= Walk(w, sigs, m).peak
    ensures Walk(w, sigs, n).trades <= Walk(w, sigs, m).trades
  {
    if n < m {
      WalkOnlyGrows(w, sigs, n, m - 1);
    }
  }

  /** The last candle of the window has no successor and never trades. */
  lemma LastCandleNeverTrades(w: seq<Candle>, sigs: seq<Detection>)
    requires |w| >= 6 && |sigs| == |w|
    ensures Walk(w, sigs, |w|) == Walk(w, sigs, |w| - 1)
  {
  }

  // ---------------------------------------------------------------------------
  // Peak and worst drawdown as functions of the balance history
  // ---------------------------------------------------------------------------

  /** The balance history of a walk state: the initial 10000, then the
      balance after each trade. */
  ghost function Balances(s: WalkState): (b: seq<real>)
    ensures |b| == |s.trades| + 1 && b[0] == InitialBalance
    ensures forall k :: 0 <= k < |s.trades| ==> b[k + 1] == s.trades[k].balance
  {
    [InitialBalance] + seq(|s.trades|, k requires 0 <= k < |s.trades| => s.trades[k].balance)
  }

  /** p is the highest balance of b. */
  ghost predicate PeakOf(b: seq<real>, p: real) {
    && (forall j :: 0 <= j < |b| ==> b[j] <= p)
    && (exists j :: 0 <= j < |b| && b[j] == p)
  }

  /** d is the largest drop from a positive balance to the same or a later
      one, as a fraction of the earlier balance, and some pair reaches it. */
  ghost predicate WorstDropOf(b: seq<real>, d: real) {
    && (forall j, k :: 0 <= j <= k < |b| && b[j] > 0.0 ==> Drawdown(b[j], b[k]) <= d)
    && (exists j, k :: 0 <= j <= k < |b| && b[j] > 0.0 && Drawdown(b[j], b[k]) == d)
  }

  /** A drop to a non-negative balance x is deeper measured from a higher
      peak. */
  lemma DropBelowPeak(bj: real, p: real, x: real)
    requires 0.0 < bj <= p && x >= 0.0
    ensures Drawdown(bj, x) <= Drawdown(p, x)
  {
    var u := x / bj;
    var v := x / p;
    assert u * bj == x;
    assert v * p == x;
    DropAsShare(bj, x);
    DropAsShare(p, x);
    MulNonNeg(u, p - bj);
    assert u * p >= v * p;
    if u < v {
      MulPos(v - u, p);
    }
  }

  /** The drop from p to x is one minus the share x / p. */
  lemma DropAsShare(p: real, x: real)
    requires p > 0.0
    ensures Drawdown(p, x) == 1.0 - x / p
  {
    var q := (p - x) / p;
    var u := x / p;
    assert q * p == p - x;
    assert u * p == x;
    assert (q + u) * p == q * p + u * p;
    assert (q + u - 1.0) * p == 0.0;
    if q + u - 1.0 > 0.0 {
      MulPos(q + u - 1.0, p);
    } else if q + u - 1.0 < 0.0 {
      MulPos(1.0 - q - u, p);
    }
  }

  lemma MulNonNeg(a: real, b: real)
    requires a >= 0.0 && b >= 0.0
    ensures a * b >= 0.0
  {
  }

  lemma MulPos(a: real, b: real)
    requires a > 0.0 && b > 0.0
    ensures a * b > 0.0
  {
  }

  /** The highest balance of a non-empty history. */
  ghost function Highest(b: seq<real>): (h: real)
    requires |b| > 0
    ensures h >= b[0]
  {
    if |b| == 1 then b[0] else Max(Highest(b[..|b| - 1]), b[|b| - 1])
  }

  /** The deepest drop from a positive balance of b down to x, as a fraction
      of that balance; 0 when no such drop is positive. */
  ghost function DeepestDropTo(b: seq<real>, x: real): (d: real)
    ensures d >= 0.0
  {
    if |b| == 0 then 0.0
    else Max(DeepestDropTo(b[..|b| - 1], x), if b[|b| - 1] > 0.0 then Drawdown(b[|b| - 1], x) else 0.0)
  }

  /** The deepest drop from a positive balance of b to the same or a later
      one; 0 when no such drop is positive. */
  ghost function WorstDropIn(b: seq<real>): (d: real)
    ensures d >= 0.0
  {
    if |b| == 0 then 0.0 else Max(WorstDropIn(b[..|b| - 1]), DeepestDropTo(b, b[|b| - 1]))
  }

  /** Highest is the peak of the history. */
  lemma {:induction false} HighestIsPeak(b: seq<real>)
    requires |b| > 0
    ensures PeakOf(b, Highest(b))
  {
    if |b| > 1 {
      var p := b[..|b| - 1];
      HighestIsPeak(p);
      var j :| 0 <= j < |p| && p[j] == Highest(p);
      assert b[j] == p[j];
      assert forall i :: 0 <= i < |p| ==> b[i] == p[i];
    } else {
      assert b[0] == Highest(b);
    }
  }

  /** DeepestDropTo bounds, and is reached by, the drops down to x. */
  lemma {:induction false} DeepestDropToIsDeepest(b: seq<real>, x: real)
    ensures forall j :: 0 <= j < |b| && b[j] > 0.0 ==> Drawdown(b[j], x) <= DeepestDropTo(b, x)
    ensures DeepestDropTo(b, x) == 0.0 || exists j :: 0 <= j < |b| && b[j] > 0.0 && Drawdown(b[j], x) == DeepestDropTo(b, x)
  {
    if |b| > 0 {
      var p := b[..|b| - 1];
      DeepestDropToIsDeepest(p, x);
      assert forall i :: 0 <= i < |p| ==> b[i] == p[i];
    }
  }

  /** WorstDropIn is the worst drop of the history: no pair drops further,
      and some pair reaches it when the first balance is positive. */
  lemma WorstDropInIsWorst(b: seq<real>)
    requires |b| > 0 && b[0] > 0.0
    ensures WorstDropOf(b, WorstDropIn(b))
  {
    WorstDropInBounds(b);
    WorstDropInReached(b);
  }

  /** No drop from a positive balance to the same or a later one exceeds
      WorstDropIn. */
  lemma {:induction false} WorstDropInBounds(b: seq<real>)
    ensures forall j, k :: 0 <= j <= k < |b| && b[j] > 0.0 ==> Drawdown(b[j], b[k]) <= WorstDropIn(b)
  {
    var n := |b|;
    if n > 0 {
      var p := b[..n - 1];
      WorstDropInBounds(p);
      DeepestDropToIsDeepest(b, b[n - 1]);
      forall j, k | 0 <= j <= k < n && b[j] > 0.0
        ensures Drawdown(b[j], b[k]) <= WorstDropIn(b)
      {
        if k < n - 1 {
          assert b[j] == p[j] && b[k] == p[k];
        }
      }
    }
  }

  /** Some pair starting at a positive balance reaches WorstDropIn. */
  lemma {:induction false} WorstDropInReached(b: seq<real>)
    requires |b| > 0 && b[0] > 0.0
    ensures exists j, k :: 0 <= j <= k < |b| && b[j] > 0.0 && Drawdown(b[j], b[k]) == WorstDropIn(b)
  {
    var n := |b|;
    var p := b[..n - 1];
    DeepestDropToIsDeepest(b, b[n - 1]);
    if n == 1 {
      assert Drawdown(b[0], b[0]) == 0.0;
      assert DeepestDropTo(b, b[0]) == Max(DeepestDropTo([], b[0]), Drawdown(b[0], b[0]));
      assert Drawdown(b[0], b[0]) == WorstDropIn(b);
    } else if WorstDropIn(b) == WorstDropIn(p) {
      assert p[0] == b[0];
      WorstDropInReached(p);
      var j, k :| 0 <= j <= k < |p| && p[j] > 0.0 && Drawdown(p[j], p[k]) == WorstDropIn(p);
      assert b[j] == p[j] && b[k] == p[k];
    } else {
      assert DeepestDropTo(b, b[n - 1]) == WorstDropIn(b) > WorstDropIn(p) >= 0.0;
      var j :| 0 <= j < n && b[j] > 0.0 && Drawdown(b[j], b[n - 1]) == DeepestDropTo(b, b[n - 1]);
      assert 0 <= j <= n - 1 < n;
    }
  }

  /** For a non-negative x, the deepest drop down to x is the one from the
      highest balance. */
  lemma {:induction false} DeepestDropFromPeak(b: seq<real>, x: real)
    requires |b| > 0 && b[0] > 0.0 && x >= 0.0
    ensures DeepestDropTo(b, x) == Max(0.0, Drawdown(Highest(b), x))
  {
    var n := |b|;
    var p := b[..n - 1];
    var y := b[n - 1];
    if n == 1 {
      assert DeepestDropTo(b, x) == Max(DeepestDropTo([], x), Drawdown(y, x));
    } else {
      assert p[0] == b[0];
      DeepestDropFromPeak(p, x);
      HighestIsPeak(p);
      var hp := Highest(p);
      assert hp >= p[0];
      if y > hp {
        DropBelowPeak(hp, y, x);
      } else if y > 0.0 {
        DropBelowPeak(y, hp, x);
      }
    }
  }

  /** The sign of a drop from a positive peak: none from the peak to itself,
      a gain above it, a loss below it. */
  lemma DrawdownSign(p: real, x: real)
    requires p > 0.0
    ensures x > p ==> Drawdown(p, x) < 0.0
    ensures x <= p ==> Drawdown(p, x) >= 0.0
  {
    DropAsShare(p, x);
    var u := x / p;
    assert u * p == x;
    if x > p {
      if u <= 1.0 {
        MulNonNeg(1.0 - u, p);
      }
    } else if u > 1.0 {
      MulPos(u - 1.0, p);
    }
  }

  /** Appending a non-negative balance x updates the highest balance and the
      worst drop exactly as the engine updates its peak and max drawdown. */
  lemma HistoryStep(b: seq<real>, x: real)
    requires |b| > 0 && b[0] > 0.0 && x >= 0.0
    ensures var peak := if x > Highest(b) then x else Highest(b);
            && Highest(b + [x]) == peak
            && WorstDropIn(b + [x])
               == if Drawdown(peak, x) > WorstDropIn(b) then Drawdown(peak, x) else WorstDropIn(b)
  {
    var b' := b + [x];
    assert b'[..|b|] == b;
    HighestIsPeak(b);
    var h := Highest(b);
    assert h >= b[0];
    DeepestDropFromPeak(b, x);
    assert DeepestDropTo(b', x) == Max(DeepestDropTo(b, x), if x > 0.0 then Drawdown(x, x) else 0.0);
    DrawdownSign(h, x);
    if x > h {
      assert Drawdown(x, x) == 0.0;
    }
  }

  /** A trade appends its balance to the history. */
  lemma TradeBalances(w: seq<Candle>, sigs: seq<Detection>, i: nat, s: WalkState)
    requires 5 <= i < |w| - 1 && |sigs| == |w| && s.peak >= InitialBalance && sigs[i].pattern.Some?
    ensures Balances(Trade(w, sigs, i, s)) == Balances(s) + [Trade(w, sigs, i, s).balance]
  {
    var s' := Trade(w, sigs, i, s);
    var b := Balances(s);
    var b' := Balances(s');
    assert |b'| == |b + [s'.balance]|;
    forall k | 0 <= k < |b'|
      ensures b'[k] == (b + [s'.balance])[k]
    {
      if 0 < k <= |s.trades| {
        assert s'.trades[k - 1] == s.trades[k - 1];
      }
    }
  }

  /** One trade keeps the peak the highest balance of the history and the
      max drawdown its worst drop. */
  lemma TradeHistory(w: seq<Candle>, sigs: seq<Detection>, i: nat, s: WalkState)
    requires 5 <= i < |w| == |sigs| && s.peak >= InitialBalance && TakesTrade(w, sigs, i, s)
    requires s.peak == Highest(Balances(s)) && s.maxDrawdown == WorstDropIn(Balances(s))
    ensures Trade(w, sigs, i, s).peak == Highest(Balances(Trade(w, sigs, i, s)))
    ensures Trade(w, sigs, i, s).maxDrawdown == WorstDropIn(Balances(Trade(w, sigs, i, s)))
  {
    var s' := Trade(w, sigs, i, s);
    var x := s'.balance;
    assert x >= 0.0;
    TradeBalances(w, sigs, i, s);
    HistoryStep(Balances(s), x);
  }

  /** Before any trade the history is the initial balance alone: it is the
      peak, and nothing has been lost. */
  lemma StartHistory()
    ensures Highest(Balances(Start)) == Start.peak && WorstDropIn(Balances(Start)) == Start.maxDrawdown
  {
    var b := Balances(Start);
    assert b == [InitialBalance];
    assert Drawdown(InitialBalance, InitialBalance) == 0.0;
    assert DeepestDropTo(b, InitialBalance) == Max(DeepestDropTo([], InitialBalance), Drawdown(InitialBalance, InitialBalance));
    assert WorstDropIn(b) == Max(WorstDropIn([]), DeepestDropTo(b, InitialBalance));
  }

  /** One iteration of the loop keeps the peak the highest balance of the
      history and the max drawdown its worst drop. */
  lemma StepHistory(w: seq<Candle>, sigs: seq<Detection>, i: nat, s: WalkState)
    requires 5 <= i < |w| == |sigs| && s.peak >= InitialBalance
    requires s.peak == Highest(Balances(s)) && s.maxDrawdown == WorstDropIn(Balances(s))
    ensures Step(w, sigs, i, s).peak == Highest(Balances(Step(w, sigs, i, s)))
    ensures Step(w, sigs, i, s).maxDrawdown == WorstDropIn(Balances(Step(w, sigs, i, s)))
  {
    if TakesTrade(w, sigs, i, s) {
      TradeHistory(w, sigs, i, s);
    }
  }

  /** The peak of every walk state is the highest balance it has reached, and
      its max drawdown is the worst drop from a balance to the same or a later
      one (backtest.py:86-91). */
  lemma {:induction false} WorstDrop(w: seq<Candle>, sigs: seq<Detection>, n: nat)
    requires (n <= 5 || n <= |w|) && |sigs| == |w|
    ensures Walk(w, sigs, n).peak == Highest(Balances(Walk(w, sigs, n)))
    ensures Walk(w, sigs, n).maxDrawdown == WorstDropIn(Balances(Walk(w, sigs, n)))
  {
    if n <= 5 {
      StartHistory();
    } else {
      WorstDrop(w, sigs, n - 1);
      StepHistory(w, sigs, n - 1, Walk(w, sigs, n - 1));
    }
  }

  /** Stated over pairs: the peak of a walk state is the highest balance in
      its history, and its max drawdown is the largest drop from a positive
      balance to the same or a later one, reached by some pair. */
  lemma PeakAndWorstDrop(w: seq<Candle>, sigs: seq<Detection>, n: nat)
    requires (n <= 5 || n <= |w|) && |sigs| == |w|
    ensures PeakOf(Balances(Walk(w, sigs, n)), Walk(w, sigs, n).peak)
    ensures WorstDropOf(Balances(Walk(w, sigs, n)), Walk(w, sigs, n).maxDrawdown)
  {
    var s := Walk(w, sigs, n);
    WorstDrop(w, sigs, n);
    HighestIsPeak(Balances(s));
    WorstDropInIsWorst(Balances(s));
  }

  /** The max drawdown a backtest reports is 100 times the worst drop of the
      window's balance history, a drop some pair of balances reaches, and
      the walk's peak is the highest of those balances (backtest.py:86-91,
      backtest.py:133). */
  lemma BacktestDrawdown(candles: seq<Candle>, lookback: nat)
    requires 0 < lookback <= |candles|
    ensures var w := candles[|candles| - lookback..];
            var s := Walk(w, Signals(w, |w|), |w|);
            && BacktestSpec(candles, lookback).maxDrawdown == 100.0 * WorstDropIn(Balances(s))
            && WorstDropOf(Balances(s), WorstDropIn(Balances(s)))
            && PeakOf(Balances(s), s.peak)
  {
    var w := candles[|candles| - lookback..];
    var s := Walk(w, Signals(w, |w|), |w|);
    SpecIsSummary(candles, lookback);
    WorstDrop(w, Signals(w, |w|), |w|);
    HighestIsPeak(Balances(s));
    WorstDropInIsWorst(Balances(s));
  }

  /** With enough candles the backtest reports the summary of the walk over
      the trailing window. */
  lemma SpecIsSummary(candles: seq<Candle>, lookback: nat)
    requires 0 < lookback <= |candles|
    ensures var w := candles[|candles| - lookback..];
            BacktestSpec(candles, lookback) == Summarize(Walk(w, Signals(w, |w|), |w|))
  {
  }

  /** What every backtest result satisfies: the counters add up, the win
      rate and the drawdown are percentages (a win rate of 0 when nothing
      traded), at most the last ten trades are kept and all are settled, and
      a reported final balance is the initial 10000 plus 40 per win minus 50
      per loss, never negative, with the profit measured against 10000. */
  predicate SoundResult(r: BacktestResult) {
    && r.winningTrades + r.losingTrades == r.totalTrades
    && 0.0 <= r.winRate <= 100.0
    && (r.totalTrades == 0 ==> r.winRate == 0.0)
    && 0.0 <= r.maxDrawdown <= 100.0
    && |r.details| == (if r.totalTrades < DetailsKept then r.totalTrades else DetailsKept)
    && (forall k :: 0 <= k < |r.details| ==> Settled(r.details[k]))
    && (r.finalBalance.Some? ==>
          && r.finalBalance.value == InitialBalance + 40.0 * r.winningTrades as real - 50.0 * r.losingTrades as real
          && r.finalBalance.value >= 0.0
          && r.profitLoss == r.finalBalance.value - InitialBalance)
  }

  /** Every backtest result is sound; it is the empty result exactly when
      there are fewer candles than the lookback, and otherwise reports a
      final balance. */
  lemma BacktestResultFacts(candles: seq<Candle>, lookback: nat)
    requires lookback > 0
    ensures SoundResult(BacktestSpec(candles, lookback))
    ensures |candles| < lookback <==> BacktestSpec(candles, lookback) == InsufficientData
    ensures |candles| >= lookback ==> BacktestSpec(candles, lookback).finalBalance.Some?
  {
    if |candles| >= lookback {
      var w := candles[|candles| - lookback..];
      var sigs := Signals(w, |w|);
      var s := Walk(w, sigs, |w|);
      WalkSound(w, sigs, |w|);
      BalanceAccounts(w, sigs, |w|);
      SummaryFacts(s);
    }
  }

  /** The summary of a sound final state is a sound result with a final
      balance. */
  lemma SummaryFacts(s: WalkState)
    requires 0.0 <= s.balance && 0.0 <= s.maxDrawdown <= 1.0
    requires forall k :: 0 <= k < |s.trades| ==> Settled(s.trades[k])
    requires s.balance == InitialBalance + 40.0 * WinCount(s.trades) as real - 50.0 * (|s.trades| - WinCount(s.trades)) as real
    ensures SoundResult(Summarize(s)) && Summarize(s).finalBalance.Some?
  {
    TailSettled(s.trades, DetailsKept);
  }

  /** The backtest as the engine runs it: a loop over the trailing window
      that keeps the balance, peak and worst drawdown and appends a record
      per trade, then a count of the wins. */
  method RunBacktest(candles: seq<Candle>, lookbackPeriod: nat) returns (r: BacktestResult)
    requires lookbackPeriod > 0
    ensures r == BacktestSpec(candles, lookbackPeriod)
  {
    if |candles| < lookbackPeriod {
      return InsufficientData;
    }
    var testCandles := candles[|candles| - lookbackPeriod..];
    var trades: seq<TradeRecord> := [];
    var balance := InitialBalance;
    var peakBalance := balance;
    var maxDrawdown := 0.0;
    ghost var sigs := Signals(testCandles, |testCandles|);
    var i := 5;
    while i < |testCandles|
      invariant 5 <= i && (i <= |testCandles| || i == 5)
      invariant WalkState(balance, peakBalance, maxDrawdown, trades) == Walk(testCandles, sigs, i)
    {
      WalkNext(testCandles, sigs, i);
      trades, balance, peakBalance, maxDrawdown := WalkIteration(testCandles, i, trades, balance, peakBalance, maxDrawdown);
      i := i + 1;
    }
    WalkEnd(testCandles, sigs, i);
    r := Report(trades, balance, peakBalance, maxDrawdown);
    ReportIsSpec(candles, lookbackPeriod, WalkState(balance, peakBalance, maxDrawdown, trades), r);
  }

  /** The summary of the whole walk over the trailing window is the
      specified result. */
  lemma ReportIsSpec(candles: seq<Candle>, lookback: nat, s: WalkState, r: BacktestResult)
    requires 0 < lookback <= |candles|
    requires var w := candles[|candles| - lookback..]; s == Walk(w, Signals(w, |w|), |w|)
    requires r == Summarize(s)
    ensures r == BacktestSpec(candles, lookback)
  {
    SpecIsSummary(candles, lookback);
  }

  /** The walk's state at i + 1 is one Step from its state at i. */
  lemma WalkNext(w: seq<Candle>, sigs: seq<Detection>, i: nat)
    requires 5 <= i < |w| == |sigs|
    ensures Walk(w, sigs, i).peak >= InitialBalance
    ensures Walk(w, sigs, i + 1) == Step(w, sigs, i, Walk(w, sigs, i))
  {
  }

  /** Where the engine's loop stops, the walk has reached its final state. */
  lemma WalkEnd(w: seq<Candle>, sigs: seq<Detection>, i: nat)
    requires |sigs| == |w| && 5 <= i && i >= |w| && (i <= |w| || i == 5)
    ensures Walk(w, sigs, i) == Walk(w, sigs, |w|)
  {
  }

  /** One pass of the engine's loop body at index i: detect on the five
      candles ending at i, and when the gate admits the signal, settle a trade
      on the next close. The new state is Step's. */
  method WalkIteration(w: seq<Candle>, i: nat, trades: seq<TradeRecord>,
                       balance: real, peakBalance: real, maxDrawdown: real)
    returns (trades': seq<TradeRecord>, balance': real, peakBalance': real, maxDrawdown': real)
    requires 5 <= i < |w| && peakBalance >= InitialBalance
    ensures WalkState(balance', peakBalance', maxDrawdown', trades')
            == Step(w, Signals(w, |w|), i, WalkState(balance, peakBalance, maxDrawdown, trades))
  {
    ghost var sigs := Signals(w, |w|);
    ghost var s := WalkState(balance, peakBalance, maxDrawdown, trades);
    trades', balance', peakBalance', maxDrawdown' := trades, balance, peakBalance, maxDrawdown;
    var detection := DetectAtIndex(w, i);
    if detection.detected && detection.pattern.Some? && detection.confidence >= MinConfidence {
      var tradeAmount := TradeAmount;
      if balance >= tradeAmount {
        if i < |w| - 1 {
          assert TakesTrade(w, sigs, i, s);
          var tradeRecord;
          balance', peakBalance', maxDrawdown', tradeRecord :=
            SettleTrade(w, sigs, i, detection, trades, balance, peakBalance, maxDrawdown);
          trades' := trades + [tradeRecord];
        }
      }
    }
  }

  /** The summary the engine builds after the walk: the counts, the win
      rate, the profit from the initial balance, the drawdown in percent,
      the final balance and the last ten trades, exactly Summarize. */
  method Report(trades: seq<TradeRecord>, balance: real, peakBalance: real, maxDrawdown: real)
    returns (r: BacktestResult)
    ensures r == Summarize(WalkState(balance, peakBalance, maxDrawdown, trades))
  {
    var totalTrades := |trades|;
    var winningTrades := CountWins(trades);
    var losingTrades := totalTrades - winningTrades;
    var winRate := WinRate(winningTrades, totalTrades);
    var totalProfitLoss := balance - InitialBalance;
    var details := Tail(trades, DetailsKept);
    r := BacktestResult(totalTrades, winningTrades, losingTrades, winRate, totalProfitLoss,
                        maxDrawdown * 100.0, Some(balance), details);
  }

  /** The number of winning trades, counted in one pass. */
  method CountWins(trades: seq<TradeRecord>) returns (n: nat)
    ensures n == WinCount(trades)
  {
    n := 0;
    for k := 0 to |trades|
      invariant n == WinCount(trades[..k])
    {
      assert trades[..k + 1][..k] == trades[..k];
      if trades[k].win {
        n := n + 1;
      }
    }
    assert trades[..|trades|] == trades;
  }

  // ---------------------------------------------------------------------------
  // Counting variants: per pattern and per confidence threshold
  // ---------------------------------------------------------------------------

  /** A signal that passed a threshold: its pattern and whether it won. */
  datatype Signal = Signal(kind: PatternKind, win: bool)

  /** The signal at index i of the whole series under a confidence threshold,
      settled on the next close. */
  function OutcomeAt(c: seq<Candle>, sigs: seq<Detection>, i: nat, threshold: real): Option<Signal>
    requires 5 <= i < |c| - 1 && |sigs| == |c|
  {
    var d := sigs[i];
    if d.detected && d.pattern.Some? && d.confidence >= threshold then
      var dir := Reversal(d.pattern.value);
      Some(Signal(d.pattern.value, Settle(dir, c[i].close, c[i + 1].close)))
    else None
  }

  /** Which signals a counter counts. */
  datatype Tally = AllTrades | WonTrades | KindTrades(kind: PatternKind) | KindWins(kind: PatternKind) | KindLosses(kind: PatternKind)

  predicate Counts(f: Tally, s: Signal) {
    match f
    case AllTrades => true
    case WonTrades => s.win
    case KindTrades(k) => s.kind == k
    case KindWins(k) => s.kind == k && s.win
    case KindLosses(k) => s.kind == k && !s.win
  }

  /** The scan range(5, len - 1) ends before this index. */
  function ScanEnd(c: seq<Candle>): nat {
    if |c| >= 6 then |c| - 1 else 5
  }

  /** Number of signals at indices 5 .. n-1 that pass the threshold and that
      the tally counts. */
  function Count(c: seq<Candle>, sigs: seq<Detection>, threshold: real, f: Tally, n: nat): (k: nat)
    requires (n <= 5 || n < |c|) && |sigs| == |c|
    ensures k <= if n <= 5 then 0 else n - 5
  {
    if n <= 5 then 0
    else
      Count(c, sigs, threshold, f, n - 1) + Tick(f, OutcomeAt(c, sigs, n - 1, threshold))
  }

  /** One for a passing signal the counter counts, zero otherwise. */
  function Tick(f: Tally, o: Option<Signal>): nat {
    if o.Some? && Counts(f, o.value) then 1 else 0
  }

  /** For one index the ticks add up as the counters do. */
  lemma TickAddsUp(o: Option<Signal>)
    ensures Tick(WonTrades, o) <= Tick(AllTrades, o)
    ensures Tick(KindTrades(FiveGreen), o) + Tick(KindTrades(FiveRed), o) == Tick(AllTrades, o)
    ensures forall k: PatternKind :: Tick(KindTrades(k), o) == Tick(KindWins(k), o) + Tick(KindLosses(k), o)
  {
  }

  /** One more index adds one to a counter exactly when that index holds a
      passing signal the counter counts. */
  lemma CountStep(c: seq<Candle>, sigs: seq<Detection>, threshold: real, f: Tally, i: nat, d: Detection, win: bool)
    requires 5 <= i < |c| - 1 && |sigs| == |c| && d == sigs[i]
    requires d.detected && d.pattern.Some? && d.confidence >= threshold ==> win == Settle(Reversal(d.pattern.value), c[i].close, c[i + 1].close)
    ensures Count(c, sigs, threshold, f, i + 1)
            == Count(c, sigs, threshold, f, i)
               + if d.detected && d.pattern.Some? && d.confidence >= threshold && Counts(f, Signal(d.pattern.value, win))
                 then 1 else 0
  {
  }

  /** The counters add up: wins never exceed trades, each pattern's trades
      are its wins plus its losses, and the two patterns' trades make up all
      trades. */
  lemma {:induction false} CountsAddUp(c: seq<Candle>, sigs: seq<Detection>, threshold: real, n: nat)
    requires (n <= 5 || n < |c|) && |sigs| == |c|
    ensures Count(c, sigs, threshold, WonTrades, n) <= Count(c, sigs, threshold, AllTrades, n)
    ensures Count(c, sigs, threshold, KindTrades(FiveGreen), n) + Count(c, sigs, threshold, KindTrades(FiveRed), n)
            == Count(c, sigs, threshold, AllTrades, n)
    ensures forall k: PatternKind ::
              Count(c, sigs, threshold, KindTrades(k), n) == Count(c, sigs, threshold, KindWins(k), n) + Count(c, sigs, threshold, KindLosses(k), n)
  {
    if n > 5 {
      CountsAddUp(c, sigs, threshold, n - 1);
      TickAddsUp(OutcomeAt(c, sigs, n - 1, threshold));
    }
  }

  /** A stricter threshold admits a subset of the signals, so no counter
      grows when the threshold rises. */
  lemma {:induction false} CountAntitone(c: seq<Candle>, sigs: seq<Detection>, t1: real, t2: real, f: Tally, n: nat)
    requires t1 <= t2 && (n <= 5 || n < |c|) && |sigs| == |c|
    ensures Count(c, sigs, t2, f, n) <= Count(c, sigs, t1, f, n)
  {
    if n > 5 {
      CountAntitone(c, sigs, t1, t2, f, n - 1);
    }
  }

  datatype ThresholdResult = ThresholdResult(totalTrades: nat, winningTrades: nat, winRate: real)

  /** Reference definition of the counting-only backtest at a threshold. */
  function ThresholdSpec(c: seq<Candle>, threshold: real): (r: ThresholdResult)
    ensures r.totalTrades <= ScanEnd(c) - 5
  {
    var n := ScanEnd(c);
    var sigs := Signals(c, |c|);
    var total := Count(c, sigs, threshold, AllTrades, n);
    var wins := Count(c, sigs, threshold, WonTrades, n);
    ThresholdResult(total, wins, WinRate(wins, total))
  }

  /** The counting-only result never has more wins than trades, and its win
      rate is a percentage that is zero without trades. */
  lemma ThresholdSpecBounds(c: seq<Candle>, threshold: real)
    ensures var r := ThresholdSpec(c, threshold);
            && r.winningTrades <= r.totalTrades
            && 0.0 <= r.winRate <= 100.0
            && (r.totalTrades == 0 ==> r.winRate == 0.0)
  {
    CountsAddUp(c, Signals(c, |c|), threshold, ScanEnd(c));
  }

  /** Raising the threshold never increases the number of trades or wins. */
  lemma ThresholdMonotone(c: seq<Candle>, t1: real, t2: real)
    requires t1 <= t2
    ensures ThresholdSpec(c, t2).totalTrades <= ThresholdSpec(c, t1).totalTrades
    ensures ThresholdSpec(c, t2).winningTrades <= ThresholdSpec(c, t1).winningTrades
  {
    var sigs := Signals(c, |c|);
    CountAntitone(c, sigs, t1, t2, AllTrades, ScanEnd(c));
    CountAntitone(c, sigs, t1, t2, WonTrades, ScanEnd(c));
  }

  /** Up to index 204 the balance always covers the stake: at most 199 trades
      have lost at most 9950 of the 10000. So over those indices the walk
      trades exactly at the signals that pass the gate of 60, and wins
      exactly where the counting-only scan counts a win. */
  lemma {:induction false} WalkMatchesCount(w: seq<Candle>, sigs: seq<Detection>, n: nat)
    requires (n <= 5 || n < |w|) && n <= 205 && |sigs| == |w|
    ensures |Walk(w, sigs, n).trades| == Count(w, sigs, MinConfidence, AllTrades, n)
    ensures WinCount(Walk(w, sigs, n).trades) == Count(w, sigs, MinConfidence, WonTrades, n)
  {
    if n > 5 {
      WalkMatchesCount(w, sigs, n - 1);
      var s := Walk(w, sigs, n - 1);
      WalkTradesBounded(w, sigs, n - 1);
      BalanceAccounts(w, sigs, n - 1);
      assert s.balance >= TradeAmount;
      if TakesTrade(w, sigs, n - 1, s) {
        var s' := Walk(w, sigs, n);
        assert s'.trades[..|s'.trades| - 1] == s.trades;
      }
    }
  }

  /** For a lookback of at most 206 candles (app.py:239 backtests the last
      100 candles with the default lookback of 100), the
      walk-forward backtest reports the same trades, wins and win rate as the
      counting-only backtest at 60 run on the same window. */
  lemma BacktestAgreesWithThreshold(candles: seq<Candle>, lookback: nat)
    requires 0 < lookback <= |candles| && lookback <= 206
    ensures var r := BacktestSpec(candles, lookback);
            var t := ThresholdSpec(candles[|candles| - lookback..], MinConfidence);
            r.totalTrades == t.totalTrades && r.winningTrades == t.winningTrades && r.winRate == t.winRate
  {
    var w := candles[|candles| - lookback..];
    SpecIsSummary(candles, lookback);
    WholeWalkCounts(w, Signals(w, |w|));
  }

  /** The whole walk takes the trades, and wins them, that the count over
      the scanned indices finds. */
  lemma WholeWalkCounts(w: seq<Candle>, sigs: seq<Detection>)
    requires |w| <= 206 && |sigs| == |w|
    ensures |Walk(w, sigs, |w|).trades| == Count(w, sigs, MinConfidence, AllTrades, ScanEnd(w))
    ensures WinCount(Walk(w, sigs, |w|).trades) == Count(w, sigs, MinConfidence, WonTrades, ScanEnd(w))
  {
    if |w| >= 6 {
      LastCandleNeverTrades(w, sigs);
    }
    WalkMatchesCount(w, sigs, ScanEnd(w));
  }

  /** The counting-only backtest as the engine runs it: one pass over the
      whole series, counting trades and wins above the threshold. */
  method BacktestWithConfidence(candles: seq<Candle>, confidenceThreshold: real) returns (r: ThresholdResult)
    ensures r == ThresholdSpec(candles, confidenceThreshold)
    ensures r.winningTrades <= r.totalTrades
    ensures 0.0 <= r.winRate <= 100.0 && (r.totalTrades == 0 ==> r.winRate == 0.0)
  {
    var tradesCount := 0;
    var wins := 0;
    ghost var sigs := Signals(candles, |candles|);
    var i := 5;
    while i < |candles| - 1
      invariant 5 <= i <= ScanEnd(candles)
      invariant tradesCount == Count(candles, sigs, confidenceThreshold, AllTrades, i)
      invariant wins == Count(candles, sigs, confidenceThreshold, WonTrades, i)
    {
      var detection := DetectAtIndex(candles, i);
      if detection.detected && detection.pattern.Some? && detection.confidence >= confidenceThreshold {
        tradesCount := tradesCount + 1;
        var nextCandle := candles[i + 1];
        var currentCandle := candles[i];
        var direction := TradeDirection(Name(detection.pattern.value));
        var win := Settle(direction, currentCandle.close, nextCandle.close);
        if win {
          wins := wins + 1;
        }
        CountStep(candles, sigs, confidenceThreshold, AllTrades, i, detection, win);
        CountStep(candles, sigs, confidenceThreshold, WonTrades, i, detection, win);
      } else {
        CountStep(candles, sigs, confidenceThreshold, AllTrades, i, detection, false);
        CountStep(candles, sigs, confidenceThreshold, WonTrades, i, detection, false);
      }
      i := i + 1;
    }
    var winRate := WinRate(wins, tradesCount);
    r := ThresholdResult(tradesCount, wins, winRate);
    ThresholdSpecBounds(candles, confidenceThreshold);
  }

  datatype Counters = Counters(total: nat, wins: nat, losses: nat)

  datatype PatternStats = PatternStats(total: nat, wins: nat, losses: nat, winRate: real)

  /** Counters for one pattern at the default gate of 60 over the whole scan. */
  function CountersFor(c: seq<Candle>, sigs: seq<Detection>, k: PatternKind, n: nat): Counters
    requires (n <= 5 || n < |c|) && |sigs| == |c|
  {
    Counters(Count(c, sigs, MinConfidence, KindTrades(k), n),
             Count(c, sigs, MinConfidence, KindWins(k), n),
             Count(c, sigs, MinConfidence, KindLosses(k), n))
  }

  /** Counters after one more signal of their pattern. */
  function Bump(counters: Counters, win: bool): (b: Counters)
    ensures b.total == counters.total + 1
    ensures counters.total == counters.wins + counters.losses ==> b.total == b.wins + b.losses
    ensures win <==> b.wins == counters.wins + 1
  {
    Counters(counters.total + 1, counters.wins + (if win then 1 else 0), counters.losses + (if win then 0 else 1))
  }

  const NoCounters := map[FiveGreen := Counters(0, 0, 0), FiveRed := Counters(0, 0, 0)]

  /** The dictionary of counters after recording one index's outcome. */
  function Record(m: map<PatternKind, Counters>, o: Option<Signal>): (m': map<PatternKind, Counters>)
    requires FiveGreen in m && FiveRed in m
    ensures FiveGreen in m' && FiveRed in m'
  {
    if o.Some? then
      var k := o.value.kind;
      assert k == FiveGreen || k == FiveRed;
      m[k := Bump(m[k], o.value.win)]
    else m
  }

  /** The dictionary of counters after indices 5 .. n-1 at the default gate. */
  function PatternCounters(c: seq<Candle>, sigs: seq<Detection>, n: nat): (m: map<PatternKind, Counters>)
    requires (n <= 5 || n < |c|) && |sigs| == |c|
    ensures FiveGreen in m && FiveRed in m
  {
    if n <= 5 then NoCounters else Record(PatternCounters(c, sigs, n - 1), OutcomeAt(c, sigs, n - 1, MinConfidence))
  }

  /** One more index records the signal at i, if it passes the gate, under
      its pattern. */
  lemma PatternCountersStep(c: seq<Candle>, sigs: seq<Detection>, i: nat, d: Detection, win: bool)
    requires 5 <= i < |c| - 1 && |sigs| == |c| && d == sigs[i]
    requires d.detected && d.pattern.Some? && d.confidence >= MinConfidence ==>
               win == Settle(Reversal(d.pattern.value), c[i].close, c[i + 1].close)
    ensures var m := PatternCounters(c, sigs, i);
            PatternCounters(c, sigs, i + 1)
            == if d.detected && d.pattern.Some? && d.confidence >= MinConfidence
               then m[d.pattern.value := Bump(m[d.pattern.value], win)]
               else m
  {
  }

  /** The dictionary holds, per pattern, the counts of its trades, wins and
      losses. */
  lemma {:induction false} PatternCountersCount(c: seq<Candle>, sigs: seq<Detection>, n: nat, k: PatternKind)
    requires (n <= 5 || n < |c|) && |sigs| == |c|
    ensures PatternCounters(c, sigs, n)[k] == CountersFor(c, sigs, k, n)
  {
    if n > 5 {
      PatternCountersCount(c, sigs, n - 1, k);
    }
  }

  /** Each pattern's counters with their win rate. */
  function StatsOf(m: map<PatternKind, Counters>): (stats: map<PatternKind, PatternStats>)
    requires FiveGreen in m && FiveRed in m
    ensures stats.Keys == {FiveGreen, FiveRed}
  {
    map[FiveGreen := WithWinRate(m[FiveGreen]), FiveRed := WithWinRate(m[FiveRed])]
  }

  /** Reference definition of per-pattern performance: the counters after
      the whole scan, each with its win rate. */
  function PatternStatsSpec(c: seq<Candle>): (stats: map<PatternKind, PatternStats>)
    ensures stats.Keys == {FiveGreen, FiveRed}
  {
    StatsOf(PatternCounters(c, Signals(c, |c|), ScanEnd(c)))
  }

  /** A pattern's entry reports the given numbers of trades and wins, its
      wins and losses add up to its total, and its win rate is the
      percentage of wins among its trades. */
  predicate StatsEntry(e: PatternStats, trades: nat, wins: nat) {
    && e.total == trades
    && e.wins == wins
    && e.total == e.wins + e.losses
    && e.winRate == WinRate(e.wins, e.total)
    && 0.0 <= e.winRate <= 100.0
  }

  lemma WithWinRateEntry(cn: Counters)
    requires cn.total == cn.wins + cn.losses
    ensures StatsEntry(WithWinRate(cn), cn.total, cn.wins)
  {
  }

  /** After indices 5 .. n-1, each pattern's entry counts exactly the trades
      and wins of that pattern, and the two totals together are all trades
      that passed the gate. */
  lemma StatsOfCounters(c: seq<Candle>, sigs: seq<Detection>, n: nat)
    requires (n <= 5 || n < |c|) && |sigs| == |c|
    ensures var stats := StatsOf(PatternCounters(c, sigs, n));
            && (forall k :: k in stats ==>
                  StatsEntry(stats[k], Count(c, sigs, MinConfidence, KindTrades(k), n),
                             Count(c, sigs, MinConfidence, KindWins(k), n)))
            && stats[FiveGreen].total + stats[FiveRed].total == Count(c, sigs, MinConfidence, AllTrades, n)
  {
    var stats := StatsOf(PatternCounters(c, sigs, n));
    forall k | k in stats
      ensures StatsEntry(stats[k], Count(c, sigs, MinConfidence, KindTrades(k), n),
                         Count(c, sigs, MinConfidence, KindWins(k), n))
    {
      CountersEntry(c, sigs, k, n);
    }
    TotalsAddUp(c, sigs, n);
  }

  /** The two patterns' totals make up all trades that passed the gate. */
  lemma TotalsAddUp(c: seq<Candle>, sigs: seq<Detection>, n: nat)
    requires (n <= 5 || n < |c|) && |sigs| == |c|
    ensures var stats := StatsOf(PatternCounters(c, sigs, n));
            stats[FiveGreen].total + stats[FiveRed].total == Count(c, sigs, MinConfidence, AllTrades, n)
  {
    CountersEntry(c, sigs, FiveGreen, n);
    CountersEntry(c, sigs, FiveRed, n);
    CountsAddUp(c, sigs, MinConfidence, n);
  }

  /** The entry of one pattern reports its trades and wins with its win rate. */
  lemma CountersEntry(c: seq<Candle>, sigs: seq<Detection>, k: PatternKind, n: nat)
    requires (n <= 5 || n < |c|) && |sigs| == |c|
    ensures StatsEntry(StatsOf(PatternCounters(c, sigs, n))[k], Count(c, sigs, MinConfidence, KindTrades(k), n),
                       Count(c, sigs, MinConfidence, KindWins(k), n))
  {
    var m := PatternCounters(c, sigs, n);
    PatternCountersCount(c, sigs, n, k);
    assert StatsOf(m)[k] == WithWinRate(m[k]);
    CountsAddUp(c, sigs, MinConfidence, n);
    WithWinRateEntry(CountersFor(c, sigs, k, n));
  }

  /** Over the whole scan at the default gate: each pattern's entry counts
      that pattern's trades and wins, and the two totals make up the trades
      of the counting-only backtest. */
  lemma PatternStatsFacts(c: seq<Candle>)
    ensures var stats := PatternStatsSpec(c);
            && stats.Keys == {FiveGreen, FiveRed}
            && (forall k :: k in stats ==>
                  StatsEntry(stats[k], Count(c, Signals(c, |c|), MinConfidence, KindTrades(k), ScanEnd(c)),
                             Count(c, Signals(c, |c|), MinConfidence, KindWins(k), ScanEnd(c))))
            && stats[FiveGreen].total + stats[FiveRed].total == ThresholdSpec(c, MinConfidence).totalTrades
  {
    StatsOfCounters(c, Signals(c, |c|), ScanEnd(c));
  }

  /** Per-pattern performance as the engine computes it: a dictionary of
      counters per pattern, incremented along one pass at the default gate,
      then a win rate per pattern. */
  method AnalyzePatternPerformance(candles: seq<Candle>) returns (stats: map<PatternKind, PatternStats>)
    ensures stats == PatternStatsSpec(candles)
  {
    var patternStats := map[FiveGreen := Counters(0, 0, 0), FiveRed := Counters(0, 0, 0)];
    ghost var sigs := Signals(candles, |candles|);
    var i := 5;
    while i < |candles| - 1
      invariant 5 <= i <= ScanEnd(candles)
      invariant patternStats == PatternCounters(candles, sigs, i)
    {
      var detection := DetectAtIndex(candles, i);
      ghost var outcome := false;
      if detection.detected && detection.pattern.Some? && detection.confidence >= MinConfidence {
        var nextCandle := candles[i + 1];
        var currentCandle := candles[i];
        var patternType := detection.pattern.value;
        var direction := TradeDirection(Name(patternType));
        assert direction == Reversal(patternType);
        var win := Settle(direction, currentCandle.close, nextCandle.close);
        var counters := patternStats[patternType];
        counters := counters.(total := counters.total + 1);
        if win {
          counters := counters.(wins := counters.wins + 1);
        } else {
          counters := counters.(losses := counters.losses + 1);
        }
        assert counters == Bump(patternStats[patternType], win);
        patternStats := patternStats[patternType := counters];
        outcome := win;
      }
      PatternCountersStep(candles, sigs, i, detection, outcome);
      i := i + 1;
    }
    assert patternStats == PatternCounters(candles, sigs, ScanEnd(candles));
    stats := map[FiveGreen := WithWinRate(patternStats[FiveGreen]), FiveRed := WithWinRate(patternStats[FiveRed])];
    assert stats == StatsOf(patternStats);
  }

  function WithWinRate(c: Counters): (e: PatternStats)
    ensures e.total == c.total && e.wins == c.wins && e.losses == c.losses
    ensures c.wins <= c.total ==> 0.0 <= e.winRate <= 100.0
    ensures c.total == 0 ==> e.winRate == 0.0
  {
    PatternStats(c.total, c.wins, c.losses, WinRate(c.wins, c.total))
  }

  // ---------------------------------------------------------------------------
  // Threshold sweep
  // ---------------------------------------------------------------------------

  const ConfidenceThresholds: seq<real> := [50.0, 60.0, 70.0, 80.0]

  datatype BestParams = BestParams(confidenceThreshold: real, expectedWinRate: real, totalTrades: nat)

  /** Win rate of the counting-only backtest at the j-th candidate threshold. */
  function RateAt(c: seq<Candle>, j: nat): real
    requires j < |ConfidenceThresholds|
  {
    ThresholdSpec(c, ConfidenceThresholds[j]).winRate
  }

  /** The win rates of the four candidates, in sweep order. */
  function SweepRates(c: seq<Candle>): (rates: seq<real>)
    ensures |rates| == |ConfidenceThresholds|
    ensures forall j :: 0 <= j < |rates| ==> rates[j] == RateAt(c, j)
  {
    [RateAt(c, 0), RateAt(c, 1), RateAt(c, 2), RateAt(c, 3)]
  }

  function ParamsAt(c: seq<Candle>, j: nat): BestParams
    requires j < |ConfidenceThresholds|
  {
    var t := ConfidenceThresholds[j];
    BestParams(t, ThresholdSpec(c, t).winRate, ThresholdSpec(c, t).totalTrades)
  }

  /** Entry b is the first among the entries before end with the highest
      rate, and that rate is positive. */
  predicate FirstBest(rates: seq<real>, b: nat, end: nat)
    requires b < end <= |rates|
  {
    && rates[b] > 0.0
    && (forall k :: 0 <= k < end ==> rates[k] <= rates[b])
    && (forall k :: 0 <= k < b ==> rates[k] < rates[b])
  }

  /** What the sweep knows after the first j candidates: with no incumbent,
      all their rates were zero; with incumbent b, b is their first best. */
  predicate SweepInvariant(rates: seq<real>, j: nat, found: bool, b: nat, performance: real)
    requires j <= |rates|
  {
    if found then b < j && FirstBest(rates, b, j) && performance == rates[b]
    else performance == 0.0 && forall k :: 0 <= k < j ==> rates[k] == 0.0
  }

  /** One sweep step: a strictly higher rate takes over, anything else leaves
      the incumbent. Rates are never negative. */
  lemma SweepStep(rates: seq<real>, j: nat, found: bool, b: nat, performance: real)
    requires j < |rates| && SweepInvariant(rates, j, found, b, performance)
    requires forall k :: 0 <= k < |rates| ==> rates[k] >= 0.0
    ensures rates[j] > performance ==> SweepInvariant(rates, j + 1, true, j, rates[j])
    ensures rates[j] <= performance ==> SweepInvariant(rates, j + 1, found, b, performance)
  {
  }

  /** The sweep as the engine runs it: the candidates in ascending order,
      replacing the incumbent only on a strictly higher win rate; nothing when
      no candidate has a positive win rate. */
  method OptimizeParameters(candles: seq<Candle>) returns (best: Option<BestParams>)
    ensures best.None? <==> forall j :: 0 <= j < |ConfidenceThresholds| ==> SweepRates(candles)[j] == 0.0
    ensures best.Some? ==>
              exists b :: 0 <= b < |ConfidenceThresholds| && FirstBest(SweepRates(candles), b, |ConfidenceThresholds|)
                          && best.value == ParamsAt(candles, b)
  {
    ghost var rates := SweepRates(candles);
    forall k | 0 <= k < |rates|
      ensures rates[k] >= 0.0
    {
      ThresholdSpecBounds(candles, ConfidenceThresholds[k]);
    }
    var bestPerformance := 0.0;
    best := None;
    ghost var bestIndex: nat := 0;
    for j := 0 to |ConfidenceThresholds|
      invariant SweepInvariant(rates, j, best.Some?, bestIndex, bestPerformance)
      invariant best.Some? ==> bestIndex < |rates| && best.value == ParamsAt(candles, bestIndex)
    {
      var confidenceThreshold := ConfidenceThresholds[j];
      var modifiedResults := BacktestWithConfidence(candles, confidenceThreshold);
      assert modifiedResults.winRate == rates[j];
      SweepStep(rates, j, best.Some?, bestIndex, bestPerformance);
      if modifiedResults.winRate > bestPerformance {
        bestPerformance := modifiedResults.winRate;
        best := Some(BestParams(confidenceThreshold, modifiedResults.winRate, modifiedResults.totalTrades));
        bestIndex := j;
      }
    }
    if best.Some? {
      assert FirstBest(rates, bestIndex, |ConfidenceThresholds|);
    }
  }

  // ---------------------------------------------------------------------------
  // Report verdict
  // ---------------------------------------------------------------------------

  datatype ReportError = MissingKey(key: string)

  datatype Verdict = Verdict(approved: bool, recommendation: string)

  const ApprovedSentence := "Strategy shows positive results. Approved for live trading."

  const RejectedSentence := "Strategy does not meet minimum requirements. Consider optimization."

  /** The validation part of the report: approved, with the approval
      sentence, at a win rate of 60% or more. Rendering reads the final
      balance, so a result without one fails with a missing key. */
  function ReportVerdict(results: BacktestResult): (v: Result<Verdict, ReportError>)
    ensures results.finalBalance.None? ==> v == Failure(MissingKey("final_balance"))
    ensures results.finalBalance.Some? ==>
              && v.Success?
              && (v.value.approved <==> results.winRate >= ApprovalWinRate)
              && (v.value.recommendation == ApprovedSentence <==> results.winRate >= ApprovalWinRate)
  {
    if results.finalBalance.None? then Failure(MissingKey("final_balance"))
    else
      var approved := results.winRate >= ApprovalWinRate;
      assert ApprovedSentence != RejectedSentence by {
        assert |ApprovedSentence| != |RejectedSentence|;
      }
      Success(Verdict(approved, if results.winRate >= ApprovalWinRate then ApprovedSentence else RejectedSentence))
  }

  /** A backtest is approved exactly when it traded and won at least three
      trades in five; the insufficient-data result cannot be reported. */
  lemma ApprovalMeansThreeInFive(candles: seq<Candle>, lookback: nat)
    requires lookback > 0
    ensures var r := BacktestSpec(candles, lookback);
            && (|candles| < lookback ==> ReportVerdict(r).Failure?)
            && (|candles| >= lookback ==>
                  ReportVerdict(r).Success?
                  && (ReportVerdict(r).value.approved <==> r.totalTrades > 0 && 5 * r.winningTrades >= 3 * r.totalTrades))
  {
    var r := BacktestSpec(candles, lookback);
    if |candles| >= lookback {
      WinRateAtLeastSixty(r.winningTrades, r.totalTrades);
    }
  }
}
