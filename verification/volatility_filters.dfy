/** The volatility-cooling mean-reversion rule of
    signal-generator-lasso-xgb/volatility_filters.py
    (`generate_vol_cooling_mean_reversion_signals`).

    The source works on `df.copy()`, so it is a pure function of its columns here:
    the GARCH forecast and the return column, row by row. pandas' NaN is `None`; a
    comparison with NaN is false. When no `return_thresh` is given the source uses
    the 30% and 70% quantiles of the rolling return sums; those two numbers are
    inputs of the model. */
module VolCooling {
  import opened Outcomes
  import opened Numerics

  const DefaultReturnWindow: nat := 8
  const DefaultVolLookback: nat := 3
  const DefaultVolRatioThresh: real := 0.75

  /** `rolling(w).sum()` at row `i`: NaN until `w` rows are available. */
  function RollingSum(xs: seq<real>, w: nat, i: nat): (s: Option<real>)
    requires 0 < w && i < |xs|
    ensures s.Some? <==> w <= i + 1
  {
    if w <= i + 1 then Some(Sum(xs[i + 1 - w..i + 1])) else None
  }

  /** `rolling(w).mean()` at row `i`: the window's sum over its length. */
  function RollingMean(xs: seq<real>, w: nat, i: nat): (m: Option<real>)
    requires 0 < w && i < |xs|
    ensures m.Some? <==> w <= i + 1
    ensures m.Some? ==> m.value * w as real == Sum(xs[i + 1 - w..i + 1])
  {
    if w <= i + 1 then Some(Sum(xs[i + 1 - w..i + 1]) / w as real) else None
  }

  /** `rolling(vol_lookback).mean().shift(1)`: the mean of the `lookback` rows
      before row `i`, NaN on the first `lookback` rows. */
  function PastMean(garch: seq<real>, lookback: nat, i: nat): (m: Option<real>)
    requires 0 < lookback && i < |garch|
    ensures m.Some? <==> lookback <= i
    ensures m.Some? ==> m.value * lookback as real == Sum(garch[i - lookback..i])
  {
    if i == 0 then None else RollingMean(garch, lookback, i - 1)
  }

  /** The past mean looks only at earlier rows: two GARCH columns that agree before
      row `i` give the same past mean at `i`, whatever row `i` itself holds. */
  lemma PastMeanExcludesCurrent(garch: seq<real>, garch': seq<real>, lookback: nat, i: nat)
    requires 0 < lookback && i < |garch| && i < |garch'|
    requires garch[..i] == garch'[..i]
    ensures PastMean(garch, lookback, i) == PastMean(garch', lookback, i)
  {
    if lookback <= i {
      assert garch[i - lookback..i] == garch[..i][i - lookback..];
      assert garch'[i - lookback..i] == garch'[..i][i - lookback..];
    }
  }

  /** `Vol_Cooled`: the forecast is below the scaled past mean; false while the
      past mean is NaN. */
  function VolCooled(garch: seq<real>, lookback: nat, volRatioThresh: real, i: nat): (c: bool)
    requires 0 < lookback && i < |garch|
    ensures c ==> lookback <= i
  {
    match PastMean(garch, lookback, i)
    case Some(m) => garch[i] < m * volRatioThresh
    case None => false
  }

  /** The `(lower, upper)` return thresholds: the given quantiles, or the band
      `[-|t|, |t|]` around a given threshold `t`. */
  function Thresholds(returnThresh: Option<real>, q30: real, q70: real): (b: (real, real))
    ensures returnThresh.Some? ==> b.0 <= 0.0 <= b.1 && b.0 == -b.1
    ensures returnThresh.None? ==> b == (q30, q70)
  {
    match returnThresh
    case None => (q30, q70)
    case Some(t) =>
      var a := if t < 0.0 then -t else t;
      (-a, a)
  }

  /** `np.select([cooled & (sum < lower), cooled & (sum > upper)], [1, -1], 0)`
      for one row: the first condition that holds chooses. */
  function Select(cooled: bool, recentSum: Option<real>, lower: real, upper: real): (p: int)
    ensures p in {-1, 0, 1}
    ensures p != 0 ==> cooled && recentSum.Some?
    ensures p == 1 <==> cooled && recentSum.Some? && recentSum.value < lower
    ensures p == -1 <==> cooled && recentSum.Some? && !(recentSum.value < lower) && recentSum.value > upper
  {
    if cooled && recentSum.Some? && recentSum.value < lower then 1
    else if cooled && recentSum.Some? && recentSum.value > upper then -1
    else 0
  }

  /** With a given threshold the band is ordered, so the two conditions never both
      hold and the order of `conditions` does not matter. */
  lemma GivenThresholdExclusive(t: real, q30: real, q70: real, cooled: bool, recentSum: Option<real>)
    ensures var (lower, upper) := Thresholds(Some(t), q30, q70);
            && !(recentSum.Some? && recentSum.value < lower && recentSum.value > upper)
            && (Select(cooled, recentSum, lower, upper) == -1 <==>
                  cooled && recentSum.Some? && recentSum.value > upper)
  {
  }

  /** The Position column of the function's result. */
  function Positions(garch: seq<real>, logReturns: seq<real>, returnWindow: nat, volLookback: nat,
                     returnThresh: Option<real>, q30: real, q70: real, volRatioThresh: real): (p: seq<int>)
    requires |logReturns| == |garch| && 0 < returnWindow && 0 < volLookback
    ensures |p| == |garch|
    ensures forall i :: 0 <= i < |p| ==> p[i] in {-1, 0, 1}
    ensures forall i :: 0 <= i < |p| ==> p[i] != 0 ==>
              VolCooled(garch, volLookback, volRatioThresh, i) && returnWindow <= i + 1 && volLookback <= i
  {
    var (lower, upper) := Thresholds(returnThresh, q30, q70);
    seq(|garch|, i requires 0 <= i < |garch| =>
      Select(VolCooled(garch, volLookback, volRatioThresh, i), RollingSum(logReturns, returnWindow, i), lower, upper))
  }

  /** Row by row, the Position is 1 on a cooled bar whose recent returns fell below
      the lower threshold and -1 on one whose returns rose above the upper one. */
  lemma PositionsRule(garch: seq<real>, logReturns: seq<real>, returnWindow: nat, volLookback: nat,
                      returnThresh: Option<real>, q30: real, q70: real, volRatioThresh: real, i: nat)
    requires |logReturns| == |garch| && 0 < returnWindow && 0 < volLookback && i < |garch|
    ensures var p := Positions(garch, logReturns, returnWindow, volLookback, returnThresh, q30, q70, volRatioThresh);
            var (lower, upper) := Thresholds(returnThresh, q30, q70);
            var cooled := VolCooled(garch, volLookback, volRatioThresh, i);
            var s := RollingSum(logReturns, returnWindow, i);
            && (p[i] == 1 <==> cooled && s.Some? && s.value < lower)
            && (p[i] == -1 <==> cooled && s.Some? && !(s.value < lower) && s.value > upper)
  {
  }
}
