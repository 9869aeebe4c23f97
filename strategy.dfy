/** The trading strategy: the five-candle pattern detector, its confidence
    score, the direction and gating decisions, Kelly-based position sizing and
    the market-condition summary. */
module Strategy {
  import opened Candles

  /** What pattern detection returns: whether a pattern fired, its kind, and
      its confidence in [0, 100]. */
  datatype Detection = Detection(detected: bool, pattern: Option<PatternKind>, confidence: real)

  const NoPattern := Detection(false, None, 0.0)

  /** The confidence a signal needs before it is traded. */
  const MinConfidence: real := 60.0

  // ---------------------------------------------------------------------------
  // Confidence score
  // ---------------------------------------------------------------------------

  /** Body-to-range score of one candle: the body as a percentage of the
      high-low range, capped at 100, or 50 when the range is not positive. */
  function CandleScore(c: Candle): (s: real)
    ensures 0.0 <= s <= 100.0
    ensures c.high - c.low <= 0.0 ==> s == 50.0
    ensures Abs(c.close - c.open) >= c.high - c.low > 0.0 ==> s == 100.0
  {
    var body := Abs(c.close - c.open);
    var range := c.high - c.low;
    if range > 0.0 then
      QuotientBounds(body, range);
      Min(body / range * 100.0, 100.0)
    else 50.0
  }

  lemma QuotientBounds(a: real, b: real)
    requires b > 0.0
    ensures a >= 0.0 ==> a / b >= 0.0
    ensures a >= b ==> a / b >= 1.0
  {
    assert a / b * b == a;
  }

  /** Sum of the per-candle scores, accumulated left to right. */
  function ScoreSum(w: seq<Candle>): (t: real)
    ensures 0.0 <= t <= 100.0 * |w| as real
  {
    if |w| == 0 then 0.0 else ScoreSum(w[..|w| - 1]) + CandleScore(w[|w| - 1])
  }

  /** The 10% boost for strong averages, capped at 100. */
  function Boost(average: real): (b: real)
    ensures average <= 70.0 ==> b == average
    ensures 0.0 <= average <= 100.0 ==> average <= b <= 100.0
    ensures average > 70.0 ==> b <= 100.0 && b > 70.0
  {
    if average > 70.0 then Min(average * 1.1, 100.0) else average
  }

  /** Confidence of a window: the boosted average score, 0 for no candles. */
  function Confidence(w: seq<Candle>): (r: real)
    ensures 0.0 <= r <= 100.0
  {
    if |w| == 0 then 0.0
    else
      MeanWithin(ScoreSum(w), |w|, 0.0, 100.0);
      Boost(ScoreSum(w) / |w| as real)
  }

  /** A total of n values that each lie in [lo, hi] has its mean in [lo, hi]. */
  lemma MeanWithin(total: real, n: nat, lo: real, hi: real)
    requires n > 0 && lo * n as real <= total <= hi * n as real
    ensures lo <= total / n as real <= hi
  {
    var avg := total / n as real;
    assert avg * n as real == total;
  }

  /** The scorer as the strategy runs it: one pass accumulating the running
      total, then the average and the boost. */
  method CalculateConfidence(candles: seq<Candle>) returns (confidence: real)
    ensures confidence == Confidence(candles)
    ensures 0.0 <= confidence <= 100.0
  {
    if |candles| == 0 {
      return 0.0;
    }
    var total := 0.0;
    for j := 0 to |candles|
      invariant total == ScoreSum(candles[..j])
    {
      var c := candles[j];
      var bodySize := Abs(c.close - c.open);
      var wickSize := c.high - c.low;
      var candleConfidence;
      if wickSize > 0.0 {
        var bodyRatio := bodySize / wickSize;
        candleConfidence := Min(bodyRatio * 100.0, 100.0);
      } else {
        candleConfidence := 50.0;
      }
      assert candles[..j + 1][..j] == candles[..j];
      total := total + candleConfidence;
    }
    assert candles[..|candles|] == candles;
    var average := total / |candles| as real;
    if average > 70.0 {
      average := Min(average * 1.1, 100.0);
    }
    confidence := average;
  }

  /** A window whose candles all have a non-positive range scores exactly 50:
      every candle takes the default score and 50 is below the boost. */
  lemma {:induction false} FlatWindowScoresFifty(w: seq<Candle>)
    requires forall k :: 0 <= k < |w| ==> w[k].high <= w[k].low
    ensures ScoreSum(w) == 50.0 * |w| as real
    ensures |w| > 0 ==> Confidence(w) == 50.0
  {
    if |w| > 0 {
      FlatWindowScoresFifty(w[..|w| - 1]);
      assert ScoreSum(w) / |w| as real == 50.0;
    }
  }

  /** A window in which every candle has the same score s averages to s
      (before the boost). */
  lemma {:induction false} UniformScoreSum(w: seq<Candle>, s: real)
    requires forall k :: 0 <= k < |w| ==> CandleScore(w[k]) == s
    ensures ScoreSum(w) == s * |w| as real
  {
    if |w| > 0 {
      UniformScoreSum(w[..|w| - 1], s);
    }
  }

  // ---------------------------------------------------------------------------
  // Pattern detection
  // ---------------------------------------------------------------------------

  /** Every candle of w has colour col. */
  predicate Uniform(w: seq<Candle>, col: Color) {
    forall k :: 0 <= k < |w| ==> ColorOf(w[k]) == col
  }

  /** The last five candles, in order. */
  function LastFive(candles: seq<Candle>): (w: seq<Candle>)
    requires |candles| >= 5
    ensures |w| == 5
    ensures forall k :: 0 <= k < 5 ==> w[k] == candles[|candles| - 5 + k]
  {
    var n := |candles|;
    [candles[n - 5], candles[n - 4], candles[n - 3], candles[n - 2], candles[n - 1]]
  }

  /** The last five candles are the slice that starts five from the end. */
  lemma LastFiveIsSuffix(candles: seq<Candle>)
    requires |candles| >= 5
    ensures LastFive(candles) == candles[|candles| - 5..]
  {
  }

  /** Reference definition of the detector: no pattern for fewer than five
      candles, otherwise the verdict on the last five. */
  function DetectSpec(candles: seq<Candle>): (d: Detection)
    ensures d.detected <==> d.pattern.Some?
    ensures !d.detected ==> d == NoPattern
    ensures 0.0 <= d.confidence <= 100.0
  {
    if |candles| < 5 then NoPattern else DetectFive(LastFive(candles))
  }

  /** The verdict on five candles: a pattern when all are green or all are
      red, scored on the five. */
  function DetectFive(w: seq<Candle>): (d: Detection)
    requires |w| == 5
    ensures d.detected <==> d.pattern.Some?
    ensures !d.detected ==> d == NoPattern
    ensures 0.0 <= d.confidence <= 100.0
  {
    if Uniform(w, Green) then Detection(true, Some(FiveGreen), Confidence(w))
    else if Uniform(w, Red) then Detection(true, Some(FiveRed), Confidence(w))
    else NoPattern
  }

  /** A sequence has exactly one distinct element iff all its elements equal
      the first. */
  lemma OneDistinctColor(colors: seq<Color>)
    requires |colors| > 0
    ensures |(set col | col in colors)| == 1 <==> forall k :: 0 <= k < |colors| ==> colors[k] == colors[0]
  {
    var distinct := set col | col in colors;
    assert colors[0] in distinct;
    if forall k :: 0 <= k < |colors| ==> colors[k] == colors[0] {
      assert distinct == {colors[0]};
    } else {
      var k :| 0 <= k < |colors| && colors[k] != colors[0];
      var pair := {colors[0], colors[k]};
      assert pair <= distinct;
      assert distinct == pair + (distinct - pair);
      assert |pair| == 2;
    }
  }

  /** The detector as the strategy runs it: colour the last five candles into
      a list, and report a pattern when that list holds one colour that is not
      neutral. */
  method DetectPattern(candles: seq<Candle>) returns (d: Detection)
    ensures d == DetectSpec(candles)
  {
    if |candles| < 5 {
      return NoPattern;
    }
    var last5 := candles[|candles| - 5..];
    LastFiveIsSuffix(candles);
    var colors: seq<Color> := [];
    for j := 0 to 5
      invariant |colors| == j
      invariant forall k :: 0 <= k < j ==> colors[k] == ColorOf(last5[k])
    {
      var candle := last5[j];
      if candle.close > candle.open {
        colors := colors + [Green];
      } else if candle.close < candle.open {
        colors := colors + [Red];
      } else {
        colors := colors + [Neutral];
      }
    }
    OneDistinctColor(colors);
    var distinct := set col | col in colors;
    if |distinct| == 1 && colors[0] != Neutral {
      var kind := if colors[0] == Green then FiveGreen else FiveRed;
      var confidence := CalculateConfidence(last5);
      d := Detection(true, Some(kind), confidence);
    } else {
      d := NoPattern;
    }
  }

  /** The detector reports five green exactly when each of the last five
      candles closed above its open, five red exactly when each closed below,
      and otherwise nothing, with confidence 0; a detected pattern is scored
      on the last five candles. */
  lemma DetectSpecCharacterized(candles: seq<Candle>)
    ensures DetectSpec(candles).pattern == Some(FiveGreen) <==>
              |candles| >= 5 && forall k :: |candles| - 5 <= k < |candles| ==> candles[k].close > candles[k].open
    ensures DetectSpec(candles).pattern == Some(FiveRed) <==>
              |candles| >= 5 && forall k :: |candles| - 5 <= k < |candles| ==> candles[k].close < candles[k].open
    ensures DetectSpec(candles).detected ==> DetectSpec(candles).confidence == Confidence(LastFive(candles))
    ensures !DetectSpec(candles).detected ==> DetectSpec(candles) == Detection(false, None, 0.0)
  {
    if |candles| >= 5 {
      var w := LastFive(candles);
      assert forall k :: |candles| - 5 <= k < |candles| ==> candles[k] == w[k - (|candles| - 5)];
      assert forall j :: 0 <= j < 5 ==> w[j] == candles[j + |candles| - 5];
    }
  }

  /** Only the last five candles matter: putting any history in front of a
      list of five or more candles does not change the detection. */
  lemma DetectIgnoresHistory(history: seq<Candle>, candles: seq<Candle>)
    requires |candles| >= 5
    ensures DetectSpec(history + candles) == DetectSpec(candles)
  {
    assert LastFive(history + candles) == LastFive(candles);
  }

  /** Fewer than five candles never give a pattern. */
  lemma ShortListNoPattern(candles: seq<Candle>)
    requires |candles| < 5
    ensures DetectSpec(candles) == Detection(false, None, 0.0)
  {
  }

  /** A doji among the last five candles rules out a pattern. */
  lemma DojiBlocksPattern(candles: seq<Candle>, k: nat)
    requires 5 <= |candles| && |candles| - 5 <= k < |candles|
    requires candles[k].close == candles[k].open
    ensures !DetectSpec(candles).detected
  {
    var w := LastFive(candles);
    assert w[k - (|candles| - 5)] == candles[k];
  }

  /** The worked example: five green candles, each with a body of 0.0010 in a
      range of 0.0020, give a five-green pattern with confidence 50 and no
      boost. */
  function SampleCandles(): seq<Candle> {
    [ Candle(1000, 1.2000, 1.2015, 1.1995, 1.2010),
      Candle(1060, 1.2010, 1.2025, 1.2005, 1.2020),
      Candle(1120, 1.2020, 1.2035, 1.2015, 1.2030),
      Candle(1180, 1.2030, 1.2045, 1.2025, 1.2040),
      Candle(1240, 1.2040, 1.2055, 1.2035, 1.2050) ]
  }

  lemma SampleIsFiveGreenAtFifty()
    ensures DetectSpec(SampleCandles()) == Detection(true, Some(FiveGreen), 50.0)
  {
    var w := SampleCandles();
    SampleScoresFifty();
    UniformScoreSum(w, 50.0);
    assert Confidence(w) == 50.0;
    assert Uniform(w, Green);
    assert LastFive(w) == w;
  }

  lemma SampleScoresFifty()
    ensures forall k :: 0 <= k < |SampleCandles()| ==> CandleScore(SampleCandles()[k]) == 50.0
  {
    var w := SampleCandles();
    assert CandleScore(w[0]) == 50.0;
    assert CandleScore(w[1]) == 50.0;
    assert CandleScore(w[2]) == 50.0;
    assert CandleScore(w[3]) == 50.0;
    assert CandleScore(w[4]) == 50.0;
  }

  // ---------------------------------------------------------------------------
  // Decisions
  // ---------------------------------------------------------------------------

  /** Reversal trading: five green candles call for a put, five red for a
      call, and any other name defaults to a call. */
  function TradeDirection(patternType: string): (dir: Direction)
    ensures dir == Put <==> patternType == "5_green"
    ensures dir == Call <==> patternType != "5_green"
  {
    if patternType == "5_green" then Put
    else if patternType == "5_red" then Call
    else Call
  }

  /** The direction each detected kind trades: the reversal of its colour,
      which is what the lookup by name gives. */
  function Reversal(k: PatternKind): (dir: Direction)
    ensures dir == TradeDirection(Name(k))
    ensures k == FiveGreen <==> dir == Put
  {
    if k == FiveGreen then Put else Call
  }

  /** The three-way gate: a pattern, a backtest win rate at or above the
      minimum, and a confidence of at least 60. */
  function ShouldTrade(candles: seq<Candle>, backtestWinRate: real, minWinRate: real): (ok: bool)
    ensures ok <==>
              |candles| >= 5
              && (Uniform(LastFive(candles), Green) || Uniform(LastFive(candles), Red))
              && backtestWinRate >= minWinRate
              && Confidence(LastFive(candles)) >= MinConfidence
  {
    var d := DetectSpec(candles);
    if !d.detected then false
    else if backtestWinRate < minWinRate then false
    else if d.confidence < MinConfidence then false
    else true
  }

  // ---------------------------------------------------------------------------
  // Position sizing
  // ---------------------------------------------------------------------------

  /** Half of the Kelly fraction for a win rate given in percent, at the
      fixed 80% payout. */
  function HalfKelly(winRate: real): (h: real)
    ensures h == (1.8 * winRate - 100.0) / 160.0
    ensures 0.0 <= winRate <= 100.0 ==> -0.625 <= h <= 0.5
  {
    var p := winRate / 100.0;
    var b := 0.8;
    var q := 1.0 - p;
    (b * p - q) / b * 0.5
  }

  /** Recommended stake: half-Kelly, capped at the risk percentage of the
      balance, floored at 1 and never above the balance; 0 when the balance
      or the win rate is not positive. */
  function OptimalTradeAmount(balance: real, winRate: real, riskPercentage: real): (amount: real)
    ensures balance <= 0.0 || winRate <= 0.0 ==> amount == 0.0
    ensures balance > 0.0 && winRate > 0.0 ==>
              Min(1.0, balance) <= amount <= balance
              && amount <= Max(balance * (riskPercentage / 100.0), 1.0)
    ensures balance > 0.0 && winRate > 0.0 && HalfKelly(winRate) <= 0.0 ==> amount == Min(1.0, balance)
  {
    if balance <= 0.0 || winRate <= 0.0 then 0.0
    else
      var maxRiskAmount := balance * (riskPercentage / 100.0);
      var kellyAmount := balance * Max(HalfKelly(winRate), 0.0);
      Clamp(kellyAmount, maxRiskAmount, balance)
  }

  /** The half-Kelly fraction is not positive exactly when the win rate is at
      most 100/1.8 percent, so below that every positive balance stakes the
      minimum. */
  lemma KellyBreakEven(winRate: real)
    ensures HalfKelly(winRate) <= 0.0 <==> winRate * 1.8 <= 100.0
  {
  }

  /** A higher win rate never recommends a smaller stake. */
  lemma AmountMonotoneInWinRate(balance: real, w1: real, w2: real, riskPercentage: real)
    requires w1 <= w2
    ensures OptimalTradeAmount(balance, w1, riskPercentage) <= OptimalTradeAmount(balance, w2, riskPercentage)
  {
    if balance > 0.0 && w1 > 0.0 {
      StakeMonotone(balance, w1, w2, riskPercentage);
    } else {
      assert OptimalTradeAmount(balance, w1, riskPercentage) == 0.0;
    }
  }

  /** The same for a positive balance and positive win rates, where both
      stakes come from the half-Kelly formula. */
  lemma StakeMonotone(balance: real, w1: real, w2: real, riskPercentage: real)
    requires 0.0 < w1 <= w2 && balance > 0.0
    ensures OptimalTradeAmount(balance, w1, riskPercentage) <= OptimalTradeAmount(balance, w2, riskPercentage)
  {
    ClampedStakeMonotone(balance, w1, w2, riskPercentage);
  }

  lemma ClampedStakeMonotone(balance: real, w1: real, w2: real, riskPercentage: real)
    requires w1 <= w2 && balance > 0.0
    ensures Clamp(balance * Max(HalfKelly(w1), 0.0), balance * (riskPercentage / 100.0), balance)
            <= Clamp(balance * Max(HalfKelly(w2), 0.0), balance * (riskPercentage / 100.0), balance)
  {
    KellyFractionMonotone(w1, w2);
    ScaleMonotone(balance, Max(HalfKelly(w1), 0.0), Max(HalfKelly(w2), 0.0));
    ClampMonotone(balance * Max(HalfKelly(w1), 0.0), balance * Max(HalfKelly(w2), 0.0),
                  balance * (riskPercentage / 100.0), balance);
  }

  /** The staked fraction, half the Kelly fraction at an 80% payout floored
      at zero, does not fall as the win rate rises. */
  lemma KellyFractionMonotone(w1: real, w2: real)
    requires w1 <= w2
    ensures Max(HalfKelly(w1), 0.0) <= Max(HalfKelly(w2), 0.0)
  {
    assert HalfKelly(w1) == 0.01125 * w1 - 0.625;
    assert HalfKelly(w2) == 0.01125 * w2 - 0.625;
  }

  lemma ScaleMonotone(b: real, f1: real, f2: real)
    requires b > 0.0 && f1 <= f2
    ensures b * f1 <= b * f2
  {
    assert b * (f2 - f1) >= 0.0;
  }

  /** When half-Kelly of the balance lies between the one-unit floor and both
      the risk cap and the balance, that is exactly the recommended stake. */
  lemma KellyStakeInRange(balance: real, winRate: real, riskPercentage: real)
    requires balance > 0.0 && winRate > 0.0
    requires 1.0 <= balance * HalfKelly(winRate) <= balance * (riskPercentage / 100.0)
    requires balance * HalfKelly(winRate) <= balance
    ensures OptimalTradeAmount(balance, winRate, riskPercentage) == balance * HalfKelly(winRate)
  {
    KeptStake(balance, winRate, riskPercentage);
  }

  /** When half-Kelly of the balance reaches the risk cap, and the cap lies
      between the one-unit floor and the balance, the stake is the cap. */
  lemma RiskCapBinds(balance: real, winRate: real, riskPercentage: real)
    requires balance > 0.0 && winRate > 0.0
    requires 1.0 <= balance * (riskPercentage / 100.0) <= balance
    requires balance * Max(HalfKelly(winRate), 0.0) >= balance * (riskPercentage / 100.0)
    ensures OptimalTradeAmount(balance, winRate, riskPercentage) == balance * (riskPercentage / 100.0)
  {
    CappedStake(balance, winRate, riskPercentage);
  }

  /** A positive half-Kelly stake inside the cap and the balance is kept as it is. */
  lemma KeptStake(balance: real, winRate: real, riskPercentage: real)
    requires balance > 0.0 && winRate > 0.0
    requires 1.0 <= balance * HalfKelly(winRate) <= balance * (riskPercentage / 100.0)
    requires balance * HalfKelly(winRate) <= balance
    ensures Clamp(balance * Max(HalfKelly(winRate), 0.0), balance * (riskPercentage / 100.0), balance)
            == balance * HalfKelly(winRate)
  {
    PositiveKelly(balance, winRate);
    assert Max(HalfKelly(winRate), 0.0) == HalfKelly(winRate);
  }

  /** A half-Kelly stake of at least 1 comes from a positive fraction. */
  lemma PositiveKelly(balance: real, winRate: real)
    requires balance > 0.0 && 1.0 <= balance * HalfKelly(winRate)
    ensures HalfKelly(winRate) > 0.0
  {
    NonPositiveScaled(balance, HalfKelly(winRate));
  }

  /** A half-Kelly stake at or over a cap between the floor and the balance is cut to the cap. */
  lemma CappedStake(balance: real, winRate: real, riskPercentage: real)
    requires balance > 0.0 && winRate > 0.0
    requires 1.0 <= balance * (riskPercentage / 100.0) <= balance
    requires balance * Max(HalfKelly(winRate), 0.0) >= balance * (riskPercentage / 100.0)
    ensures Clamp(balance * Max(HalfKelly(winRate), 0.0), balance * (riskPercentage / 100.0), balance)
            == balance * (riskPercentage / 100.0)
  {
    ClampAtCap(balance * Max(HalfKelly(winRate), 0.0), balance * (riskPercentage / 100.0), balance);
  }

  /** A positive multiple of a non-positive number is not positive. */
  lemma NonPositiveScaled(b: real, h: real)
    requires b > 0.0
    ensures h <= 0.0 ==> b * h <= 0.0
  {
    if h <= 0.0 {
      ScaleMonotone(b, h, 0.0);
    }
  }

  /** A stake already between the floor, the cap and the balance is kept. */
  lemma ClampInside(x: real, cap: real, balance: real)
    requires 1.0 <= x <= cap && x <= balance
    ensures Clamp(x, cap, balance) == x
  {
  }

  /** A stake at or over a cap that lies between the floor and the balance
      is cut to the cap. */
  lemma ClampAtCap(x: real, cap: real, balance: real)
    requires x >= cap && 1.0 <= cap <= balance
    ensures Clamp(x, cap, balance) == cap
  {
  }

  /** Capping, flooring at 1 and limiting to the balance keep the order. */
  lemma ClampMonotone(x1: real, x2: real, cap: real, balance: real)
    requires x1 <= x2
    ensures Clamp(x1, cap, balance) <= Clamp(x2, cap, balance)
  {
  }

  /** The Kelly stake x capped at the risk limit, raised to the one-unit
      minimum and capped again at the balance. */
  function Clamp(x: real, cap: real, balance: real): real {
    Min(Max(Min(x, cap), 1.0), balance)
  }

  /** A balance of 1000 at a 65% win rate and 2% risk stakes exactly 2% of
      the balance: the half-Kelly stake of 106.25 is over the cap. */
  lemma SizingExample()
    ensures OptimalTradeAmount(1000.0, 65.0, 2.0) == 20.0
    ensures OptimalTradeAmount(0.0, 65.0, 2.0) == 0.0
    ensures OptimalTradeAmount(1000.0, 0.0, 2.0) == 0.0
  {
    assert HalfKelly(65.0) == 0.10625;
  }

  // ---------------------------------------------------------------------------
  // Market condition
  // ---------------------------------------------------------------------------

  datatype Trend = Bullish | Bearish | Sideways | UnknownTrend

  datatype Volatility = High | Medium | Low | UnknownVolatility

  datatype MarketCondition = MarketCondition(trend: Trend, volatility: Volatility, strength: real, atr: Option<real>)

  /** Sum of the closes of candles[lo..hi]. */
  function CloseSum(candles: seq<Candle>, lo: nat, hi: nat): real
    requires lo <= hi <= |candles|
    decreases hi - lo
  {
    if lo == hi then 0.0 else CloseSum(candles, lo, hi - 1) + candles[hi - 1].close
  }

  /** When every close of candles[lo..hi] lies in [a, b], their sum lies
      between (hi - lo) times a and (hi - lo) times b. */
  lemma {:induction false} CloseSumWithin(candles: seq<Candle>, lo: nat, hi: nat, a: real, b: real)
    requires lo <= hi <= |candles|
    requires forall k :: lo <= k < hi ==> a <= candles[k].close <= b
    ensures a * (hi - lo) as real <= CloseSum(candles, lo, hi) <= b * (hi - lo) as real
    decreases hi - lo
  {
    if lo < hi {
      CloseSumWithin(candles, lo, hi - 1, a, b);
    }
  }

  /** Simple moving average of the close over the last n candles. */
  function Sma(candles: seq<Candle>, n: nat): real
    requires 0 < n <= |candles|
  {
    CloseSum(candles, |candles| - n, |candles|) / n as real
  }

  /** The moving average lies between the lowest and the highest close it
      averages: when every one of the last n closes is in [a, b], so is the
      average. */
  lemma SmaWithin(candles: seq<Candle>, n: nat, a: real, b: real)
    requires 0 < n <= |candles|
    requires forall k :: |candles| - n <= k < |candles| ==> a <= candles[k].close <= b
    ensures a <= Sma(candles, n) <= b
  {
    CloseSumWithin(candles, |candles| - n, |candles|, a, b);
    MeanWithin(CloseSum(candles, |candles| - n, |candles|), n, a, b);
  }

  /** True range of candle i: its high-low range, widened by the gap from the
      previous close; the first candle has no previous close and uses its
      range alone. */
  function TrueRange(candles: seq<Candle>, i: nat): (r: real)
    requires i < |candles|
    ensures r >= candles[i].high - candles[i].low
    ensures i > 0 ==>
              && r >= Abs(candles[i].high - candles[i - 1].close)
              && r >= Abs(candles[i].low - candles[i - 1].close)
              && r >= 0.0
              && (r == candles[i].high - candles[i].low || r == Abs(candles[i].high - candles[i - 1].close)
                  || r == Abs(candles[i].low - candles[i - 1].close))
    ensures i == 0 ==> r == candles[i].high - candles[i].low
  {
    var c := candles[i];
    if i == 0 then c.high - c.low
    else
      var prev := candles[i - 1].close;
      Max(Max(c.high - c.low, Abs(c.high - prev)), Abs(c.low - prev))
  }

  function TrueRangeSum(candles: seq<Candle>, lo: nat, hi: nat): (t: real)
    requires lo <= hi <= |candles|
    ensures lo > 0 ==> t >= 0.0
    decreases hi - lo
  {
    if lo == hi then 0.0 else TrueRangeSum(candles, lo, hi - 1) + TrueRange(candles, hi - 1)
  }

  /** Average true range over the last 14 candles; it is not negative when
      every one of them has a previous close. */
  function Atr(candles: seq<Candle>): (r: real)
    requires |candles| >= 14
    ensures |candles| > 14 ==> r >= 0.0
  {
    TrueRangeSum(candles, |candles| - 14, |candles|) / 14.0
  }

  /** Percentage move from base to last, capped at 100. A zero base divides
      by zero: a move away from zero is an infinite change, capped at 100. */
  function Strength(last: real, base: real): (s: real)
    ensures 0.0 <= s <= 100.0
    ensures last == base ==> s == 0.0
  {
    if base != 0.0 then Min(Abs((last - base) / base) * 100.0, 100.0)
    else if last != base then 100.0
    else 0.0
  }

  /** Trend from SMA5 against SMA20, volatility from the 14-bar ATR against
      0.1% and 0.2% of the last close, and strength from the move since the
      close 19 bars back; unknown below 20 candles. */
  function AnalyzeMarketCondition(candles: seq<Candle>): (m: MarketCondition)
    ensures |candles| < 20 ==> m == MarketCondition(UnknownTrend, UnknownVolatility, 0.0, None)
    ensures |candles| >= 20 ==>
              && (m.trend == Bullish <==> Sma(candles, 5) > Sma(candles, 20))
              && (m.trend == Bearish <==> Sma(candles, 5) < Sma(candles, 20))
              && (m.trend == Sideways <==> Sma(candles, 5) == Sma(candles, 20))
              && m.strength == Strength(candles[|candles| - 1].close, candles[|candles| - 20].close)
              && 0.0 <= m.strength <= 100.0
              && m.atr == Some(Atr(candles)) && m.atr.value >= 0.0
              && (m.volatility == High <==> m.atr.value > candles[|candles| - 1].close * 0.002)
              && (m.volatility == Medium <==>
                    candles[|candles| - 1].close * 0.001 < m.atr.value <= candles[|candles| - 1].close * 0.002)
              && m.volatility != UnknownVolatility
  {
    if |candles| < 20 then MarketCondition(UnknownTrend, UnknownVolatility, 0.0, None)
    else
      var sma5 := Sma(candles, 5);
      var sma20 := Sma(candles, 20);
      var trend := if sma5 > sma20 then Bullish else if sma5 < sma20 then Bearish else Sideways;
      var atr := Atr(candles);
      var lastClose := candles[|candles| - 1].close;
      var volatility := if atr > lastClose * 0.002 then High else if atr > lastClose * 0.001 then Medium else Low;
      var strength := Strength(lastClose, candles[|candles| - 20].close);
      MarketCondition(trend, volatility, strength, Some(atr))
  }
}
