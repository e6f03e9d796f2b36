/** Per-trade performance statistics of signal-generator-lasso-xgb/evaluate_trades.py.

    Each trade contributes its return on capital, `pnl / entry_balance`, when its
    entry balance is positive; the statistics are over those returns. numpy's NaN is
    the `NaN` case of `Float`; `np.sqrt` is a parameter obeying `IsSqrt`. */
module EvaluateTrades {
  import opened Outcomes
  import opened Numerics
  import opened Transcendental

  /** The two keys of a trade dict that the evaluation reads. */
  datatype TradeRecord = TradeRecord(pnl: real, entryBalance: real)

  /** A float that may be NaN. */
  datatype Float = Num(value: real) | NaN

  /** The six entries of the result dict. */
  datatype Metrics = Metrics(meanReturn: real, stdReturn: real, sharpe: Float,
                             annualizedSharpe: Float, winRate: Float, numTrades: nat)

  const DefaultRiskFreeRate: real := 0.0
  const DefaultPeriodsPerYear: int := 1460

  predicate Eligible(t: TradeRecord)
  {
    0.0 < t.entryBalance
  }

  /** The return on capital of every eligible trade, in input order. */
  function Returns(trades: seq<TradeRecord>): (r: seq<real>)
    ensures |r| <= |trades|
  {
    if trades == [] then []
    else
      var t := trades[|trades| - 1];
      Returns(trades[..|trades| - 1]) + (if Eligible(t) then [t.pnl / t.entryBalance] else [])
  }

  /** The filter distributes over concatenation: every trade is judged on its own
      and keeps its place. */
  lemma {:induction false} ReturnsConcat(a: seq<TradeRecord>, b: seq<TradeRecord>)
    ensures Returns(a + b) == Returns(a) + Returns(b)
    decreases |b|
  {
    if b == [] {
      assert a + b == a;
    } else {
      var b' := b[..|b| - 1];
      assert (a + b)[..|a + b| - 1] == a + b';
      ReturnsConcat(a, b');
    }
  }

  /** No return at all exactly when no trade has a positive entry balance. */
  lemma {:induction false} ReturnsEmpty(trades: seq<TradeRecord>)
    ensures Returns(trades) == [] <==> forall k :: 0 <= k < |trades| ==> !Eligible(trades[k])
  {
    if trades != [] {
      var p := trades[..|trades| - 1];
      ReturnsEmpty(p);
      assert forall k :: 0 <= k < |p| ==> p[k] == trades[k];
    }
  }

  /** No return is positive. */
  predicate NoGain(r: seq<real>)
  {
    forall k :: 0 <= k < |r| ==> r[k] <= 0.0
  }

  /** Every return equals `m`. */
  predicate AllEqual(r: seq<real>, m: real)
  {
    forall k :: 0 <= k < |r| ==> r[k] == m
  }

  /** `np.sum(returns > 0)` and `np.sum(returns <= 0)`. */
  function WinLoss(r: seq<real>): (c: (nat, nat))
    ensures c.0 + c.1 == |r|
    ensures c.0 == 0 <==> NoGain(r)
  {
    if r == [] then (0, 0)
    else
      var (w, l) := WinLoss(r[..|r| - 1]);
      assert forall k :: 0 <= k < |r| - 1 ==> r[..|r| - 1][k] == r[k];
      if 0.0 < r[|r| - 1] then (w + 1, l) else (w, l + 1)
  }

  /** `np.mean`: the number that, taken once per return, adds up to their sum. */
  function Mean(r: seq<real>): (m: real)
    requires r != []
    ensures m * |r| as real == Sum(r)
  {
    Sum(r) / |r| as real
  }

  /** The squared deviations from `m`, each non-negative. */
  function SquaredDeviations(r: seq<real>, m: real): (d: seq<real>)
    ensures |d| == |r|
    ensures forall k :: 0 <= k < |r| ==> d[k] == (r[k] - m) * (r[k] - m) && 0.0 <= d[k]
  {
    if r == [] then []
    else
      var x := r[|r| - 1] - m;
      SquareOf(x, x * x);
      SquaredDeviations(r[..|r| - 1], m) + [x * x]
  }

  lemma PositiveProduct(a: real, b: real, y: real)
    requires 0.0 < a && 0.0 < b && y == a * b
    ensures 0.0 < y
  {
  }

  lemma NegativeProduct(a: real, b: real, y: real)
    requires a < 0.0 && b < 0.0 && y == a * b
    ensures 0.0 < y
  {
  }

  lemma ZeroProduct(a: real, b: real, y: real)
    requires a == 0.0 && y == a * b
    ensures y == 0.0
  {
  }

  /** A square is non-negative, and zero only at zero. */
  lemma SquareOf(x: real, y: real)
    requires y == x * x
    ensures 0.0 <= y
    ensures y == 0.0 <==> x == 0.0
  {
    if 0.0 < x {
      PositiveProduct(x, x, y);
    } else if x < 0.0 {
      NegativeProduct(x, x, y);
    } else {
      ZeroProduct(x, x, y);
    }
  }

  /** numpy's population variance. */
  function Variance(r: seq<real>): real
    requires r != []
  {
    Sum(SquaredDeviations(r, Mean(r))) / |r| as real
  }

  /** The squared deviations from `m` add up to zero exactly when every return
      equals `m`. */
  lemma DeviationsZero(r: seq<real>, m: real)
    ensures 0.0 <= Sum(SquaredDeviations(r, m))
    ensures Sum(SquaredDeviations(r, m)) == 0.0 <==> AllEqual(r, m)
  {
    var d := SquaredDeviations(r, m);
    SumZero(d);
    SumNonNegative(d);
    forall k | 0 <= k < |r|
      ensures d[k] == 0.0 <==> r[k] == m
    {
      DeviationZero(r[k], m, d[k]);
    }
  }

  /** One squared deviation is zero exactly at the centre. */
  lemma DeviationZero(a: real, m: real, y: real)
    requires y == (a - m) * (a - m)
    ensures y == 0.0 <==> a == m
  {
    SquareOf(a - m, y);
  }

  lemma QuotientByCount(a: real, n: nat)
    requires 0 < n
    ensures 0.0 <= a ==> 0.0 <= a / n as real
    ensures a / n as real == 0.0 <==> a == 0.0
  {
  }

  /** The variance vanishes exactly when every return equals the mean. */
  lemma VarianceZero(r: seq<real>)
    requires r != []
    ensures 0.0 <= Variance(r)
    ensures Variance(r) == 0.0 <==> AllEqual(r, Mean(r))
  {
    DeviationsZero(r, Mean(r));
    QuotientByCount(Sum(SquaredDeviations(r, Mean(r))), |r|);
  }

  /** The per-trade Sharpe ratio: NaN when the standard deviation is zero. */
  function SharpeOf(mean: real, riskFreeRate: real, std: real): (r: Float)
    ensures r.NaN? <==> std == 0.0
  {
    if std != 0.0 then Num((mean - riskFreeRate) / std) else NaN
  }

  /** The annualised ratio: NaN when the ratio is, and also when the annualisation
      factor is negative (numpy's square root of a negative number is NaN). */
  function Annualize(sharpe: Float, periodsPerYear: int, sqrt: real -> real): (r: Float)
    ensures 0 <= periodsPerYear ==> (r.NaN? <==> sharpe.NaN?)
  {
    if sharpe.NaN? || periodsPerYear < 0 then NaN
    else Num(sharpe.value * sqrt(periodsPerYear as real))
  }

  /** Wins over decided trades; NaN when there are none. */
  function WinRateOf(wins: nat, losses: nat): (r: Float)
    ensures 0 < wins + losses ==> r.Num? && 0.0 <= r.value <= 1.0 && (r.value == 0.0 <==> wins == 0)
  {
    if wins + losses > 0 then
      assert wins as real <= (wins + losses) as real;
      Num(wins as real / (wins + losses) as real)
    else NaN
  }

  /** `evaluate_trades(trades, risk_free_rate, periods_per_year)`. */
  function Evaluate(trades: seq<TradeRecord>, riskFreeRate: real, periodsPerYear: int,
                    sqrt: real -> real): (m: Option<Metrics>)
  {
    if trades == [] then None
    else
      var r := Returns(trades);
      if r == [] then None
      else
        var mean := Mean(r);
        var std := sqrt(Variance(r));
        var sharpe := SharpeOf(mean, riskFreeRate, std);
        var (wins, losses) := WinLoss(r);
        Some(Metrics(mean, std, sharpe, Annualize(sharpe, periodsPerYear, sqrt),
                     WinRateOf(wins, losses), |r|))
  }

  /** `None` exactly when no trade has a positive entry balance (an empty list
      included); otherwise the count is that of the eligible trades and the mean
      is over their returns. */
  lemma EvaluateNone(trades: seq<TradeRecord>, riskFreeRate: real, periodsPerYear: int, sqrt: real -> real)
    ensures var m := Evaluate(trades, riskFreeRate, periodsPerYear, sqrt);
            && (m.None? <==> forall k :: 0 <= k < |trades| ==> !Eligible(trades[k]))
            && (m.Some? ==> m.value.numTrades == |Returns(trades)| > 0
                            && m.value.meanReturn == Mean(Returns(trades)))
  {
    ReturnsEmpty(trades);
  }

  /** Wins and losses partition the returns, so the win rate is a number in
      [0, 1], zero exactly when no return is positive. */
  lemma EvaluateWinRate(trades: seq<TradeRecord>, riskFreeRate: real, periodsPerYear: int, sqrt: real -> real)
    ensures var m := Evaluate(trades, riskFreeRate, periodsPerYear, sqrt);
            m.Some? ==>
              && m.value.winRate.Num?
              && 0.0 <= m.value.winRate.value <= 1.0
              && (m.value.winRate.value == 0.0 <==> NoGain(Returns(trades)))
  {
  }

  /** With a lawful square root, the Sharpe ratio is NaN exactly when every
      eligible trade had the same return, and the annualised one is NaN exactly
      when the Sharpe ratio is (for a non-negative annualisation factor). */
  lemma EvaluateSharpeNaN(trades: seq<TradeRecord>, riskFreeRate: real, periodsPerYear: int, sqrt: real -> real)
    requires IsSqrt(sqrt)
    ensures var m := Evaluate(trades, riskFreeRate, periodsPerYear, sqrt);
            m.Some? ==>
              && 0.0 <= m.value.stdReturn
              && (m.value.sharpe.NaN? <==> m.value.stdReturn == 0.0)
              && (m.value.sharpe.NaN? <==> AllEqual(Returns(trades), m.value.meanReturn))
              && (0 <= periodsPerYear ==> (m.value.annualizedSharpe.NaN? <==> m.value.sharpe.NaN?))
  {
    var r := Returns(trades);
    if trades != [] && r != [] {
      VarianceZero(r);
    }
  }
}
