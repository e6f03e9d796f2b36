/** The vanilla swap pricer of interest-rate-swap-pricer/swap_pricer.py: the
    discount-factor bootstrap, implied forwards, the payment schedule, linear
    interpolation, the swap's present values and its fair rate.

    A pandas Series is a `Series` of an index and values of one length. numpy's
    division by zero yields inf or NaN instead of a number; the operations that
    divide require non-zero divisors, except `FairRate`, which returns `None` for a
    zero annuity. */
module SwapPricer {
  import opened Outcomes
  import opened Numerics
  import opened Transcendental
  import opened ParBootstrap

  /** `TENORS_YRS`: 1M, 3M, 6M, 1Y, 2Y, 3Y, 5Y, 7Y, 10Y, 20Y and 30Y. */
  const TenorsYrs: seq<real> := [1.0 / 12.0, 3.0 / 12.0, 6.0 / 12.0, 1.0, 2.0, 3.0, 5.0, 7.0, 10.0, 20.0, 30.0]

  /** The default coupon frequency and accrual fraction. */
  const DefaultFreq: int := 2
  const DefaultDelta: real := 0.5

  lemma DivLess(a: real, b: real, f: real, x: real, y: real)
    requires a < b && 0.0 < f && x == a / f && y == b / f
    ensures x < y
  {
    assert x * f == a;
    assert y * f == b;
  }

  lemma MulBack(a: real, f: real, q: real)
    requires f != 0.0 && q == (a * f) / f
    ensures q == a
  {
    assert q * f == a * f;
  }

  /** Accruing `x` at the rate `f` read off it over one period of `1 / freq` gives 1. */
  lemma AccrualInverse(freq: real, x: real, f: real)
    requires freq != 0.0 && x != 0.0 && f == (1.0 / x - 1.0) * freq
    ensures x * (1.0 + f / freq) == 1.0
  {
    var u := 1.0 / x;
    assert u * x == 1.0;
    MulBack(u - 1.0, freq, f / freq);
  }

  // ---------------------------------------------------------------- bootstrap

  /** The bootstrap of `bootstrap_df`: bills are the tenors up to six months. */
  function SwapScheme(v: Variant): Scheme
  {
    Scheme(TenorsYrs, 0.5, v)
  }

  /** As written, the 3M and 6M factors are exactly 1 whatever their yields. */
  lemma AsWrittenBillsAtPar(par: seq<real>)
    requires |par| == |TenorsYrs| && Bootstrappable(SwapScheme(AsWritten), par)
    ensures Bootstrap(SwapScheme(AsWritten), par, |par|)[1] == 1.0
    ensures Bootstrap(SwapScheme(AsWritten), par, |par|)[2] == 1.0
  {
    AsWrittenBillAtPar(SwapScheme(AsWritten), par, 1);
    AsWrittenBillAtPar(SwapScheme(AsWritten), par, 2);
  }

  /** `bootstrap_df(par)`, with `TENORS_YRS` in `s.tenors`: the factors are filled
      in tenor order, each from the ones before it; the resulting Series is
      indexed by the tenors, so there is one par yield per tenor. */
  method BootstrapDf(s: Scheme, par: seq<real>) returns (disc: array<real>)
    requires s.billCutoff == 0.5 && |par| == |s.tenors| && Bootstrappable(s, par)
    ensures fresh(disc)
    ensures disc[..] == Bootstrap(s, par, |par|)
  {
    disc := new real[|par|];
    for i := 0 to |par|
      invariant disc[..i] == Bootstrap(s, par, i)
    {
      var t, y := s.tenors[i], par[i];
      var c := if t <= 0.5 then 0.0 else y / 2.0;
      assert c == Coupon(s, t, y) && StepDefined(s, par, i);
      if SimpleYield(s, i) {
        disc[i] := 1.0 / SimpleGrowth(s, par, i);
      } else {
        var pvCpn := SumScaled(disc[..i], c);
        disc[i] := (1.0 - pvCpn) / (1.0 + c);
      }
      assert disc[i] == NextDf(s, par, disc[..i]);
      assert disc[..i + 1] == disc[..i] + [disc[i]];
    }
  }

  // ---------------------------------------------------------------- forwards

  /** Discount factors and times whose forwards never divide by zero. */
  predicate ForwardsDefined(times: seq<real>, dfs: seq<real>)
  {
    && |times| == |dfs| && 0 < |dfs|
    && (forall i :: 0 <= i < |dfs| ==> dfs[i] != 0.0)
    && (forall i :: 0 < i < |times| ==> times[i] != times[i - 1])
  }

  /** The simple forward rate over the period ending at position `i`. */
  function ForwardAt(times: seq<real>, dfs: seq<real>, freq: real, i: nat): real
    requires ForwardsDefined(times, dfs) && i < |dfs|
  {
    if i == 0 then (1.0 / dfs[0] - 1.0) * freq
    else (dfs[i - 1] / dfs[i] - 1.0) / (times[i] - times[i - 1])
  }

  /** Forwards and discount factors determine each other: the first discount
      factor accrues at the first forward over one coupon period, and every later
      one grows back into its predecessor over its own period. */
  lemma ForwardsRebuildDfs(times: seq<real>, dfs: seq<real>, freq: real, i: nat)
    requires ForwardsDefined(times, dfs) && i < |dfs|
    ensures i == 0 && freq != 0.0 ==> dfs[0] * (1.0 + ForwardAt(times, dfs, freq, 0) / freq) == 1.0
    ensures 0 < i ==> dfs[i] * (1.0 + ForwardAt(times, dfs, freq, i) * (times[i] - times[i - 1])) == dfs[i - 1]
  {
    var f := ForwardAt(times, dfs, freq, i);
    if i == 0 {
      if freq != 0.0 {
        AccrualInverse(freq, dfs[0], f);
      }
    } else {
      DivCancel(dfs[i - 1] / dfs[i] - 1.0, times[i] - times[i - 1], f);
      DivCancel(dfs[i - 1], dfs[i], dfs[i - 1] / dfs[i]);
    }
  }

  /** `forwards_from_df(df_series, freq)`: one forward per discount factor. */
  method ForwardsFromDf(times: seq<real>, dfs: seq<real>, freq: real) returns (fwd: array<real>)
    requires ForwardsDefined(times, dfs)
    ensures fresh(fwd)
    ensures fwd[..] == Forwards(times, dfs, freq)
  {
    fwd := new real[|dfs|];
    fwd[0] := (1.0 / dfs[0] - 1.0) * freq;
    for i := 1 to |dfs|
      invariant forall k :: 0 <= k < i ==> fwd[k] == ForwardAt(times, dfs, freq, k)
    {
      var dt := times[i] - times[i - 1];
      fwd[i] := (dfs[i - 1] / dfs[i] - 1.0) / dt;
    }
  }

  /** The forward curve `forwards_from_df` returns, one forward per factor; by
      `ForwardsRebuildDfs` it determines the discount factors. */
  function Forwards(times: seq<real>, dfs: seq<real>, freq: real): (fwd: seq<real>)
    requires ForwardsDefined(times, dfs)
    ensures |fwd| == |dfs|
  {
    seq(|dfs|, i requires 0 <= i < |dfs| => ForwardAt(times, dfs, freq, i))
  }

  // ---------------------------------------------------------------- schedule

  /** `generate_schedule(years, freq)`: `int(years * freq)` payment times
      `1/freq, 2/freq, ...`; none when that count is not positive. */
  function GenerateSchedule(years: real, freq: int): (times: seq<real>)
    ensures |times| == if Trunc(years * freq as real) <= 0 then 0 else Trunc(years * freq as real)
    ensures forall i :: 0 <= i < |times| ==> times[i] * freq as real == (i + 1) as real
  {
    var periods := Trunc(years * freq as real);
    if periods <= 0 then []
    else
      assert freq != 0;
      seq(periods, i requires 0 <= i < periods => (i + 1) as real / freq as real)
  }

  predicate StrictlyIncreasing(xs: seq<real>)
  {
    forall i, j :: 0 <= i < j < |xs| ==> xs[i] < xs[j]
  }

  /** With a positive frequency the payment times increase strictly, and a
      maturity that is a whole number of periods is the last payment time. */
  lemma ScheduleShape(years: real, freq: int)
    requires 0 < freq
    ensures StrictlyIncreasing(GenerateSchedule(years, freq))
    ensures var times := GenerateSchedule(years, freq);
            (1.0 <= years * freq as real && (years * freq as real).Floor as real == years * freq as real)
              ==> times != [] && times[|times| - 1] == years
  {
    var times := GenerateSchedule(years, freq);
    var f := freq as real;
    forall i, j | 0 <= i < j < |times|
      ensures times[i] < times[j]
    {
      DivLess((i + 1) as real, (j + 1) as real, f, times[i], times[j]);
    }
    if 1.0 <= years * f && (years * f).Floor as real == years * f {
      var n := Trunc(years * f);
      assert n as real == years * f;
      MulBack(years, f, times[n - 1]);
    }
  }

  // ---------------------------------------------------------------- interpolation

  /** A pandas Series: an index and its values. */
  datatype Series = Series(index: seq<real>, values: seq<real>)

  predicate ValidSeries(s: Series)
  {
    |s.index| == |s.values| && 0 < |s.values|
  }

  /** The straight line through `(x0, y0)` and `(x1, y1)` at `x`. */
  function Lerp(x0: real, x1: real, y0: real, y1: real, x: real): real
    requires x0 < x1
  {
    y0 + (y1 - y0) * (x - x0) / (x1 - x0)
  }

  /** The segment search of `np.interp` from knot `i` on. */
  function Segment(xs: seq<real>, ys: seq<real>, x: real, i: nat): real
    requires |xs| == |ys| && i + 1 < |xs| && xs[i] <= x < xs[|xs| - 1]
    decreases |xs| - i
  {
    if x < xs[i + 1] then
      if xs[i] < xs[i + 1] then Lerp(xs[i], xs[i + 1], ys[i], ys[i + 1], x) else ys[i]
    else Segment(xs, ys, x, i + 1)
  }

  /** `np.interp(x, xs, ys)`: flat outside the knots, piecewise linear between. */
  function Interp(xs: seq<real>, ys: seq<real>, x: real): real
    requires |xs| == |ys| && 0 < |xs|
  {
    if x <= xs[0] then ys[0]
    else if xs[|xs| - 1] <= x then ys[|ys| - 1]
    else Segment(xs, ys, x, 0)
  }

  lemma {:induction false} SegmentAtKnot(xs: seq<real>, ys: seq<real>, k: nat, i: nat)
    requires |xs| == |ys| && StrictlyIncreasing(xs) && i <= k && k + 1 < |xs|
    requires xs[i] <= xs[k]
    ensures Segment(xs, ys, xs[k], i) == ys[k]
    decreases k - i
  {
    if i < k {
      SegmentAtKnot(xs, ys, k, i + 1);
    }
  }

  /** On increasing knots, interpolation reproduces every knot's value. */
  lemma InterpAtKnots(xs: seq<real>, ys: seq<real>, k: nat)
    requires |xs| == |ys| && StrictlyIncreasing(xs) && k < |xs|
    ensures Interp(xs, ys, xs[k]) == ys[k]
  {
    if 0 < k < |xs| - 1 {
      SegmentAtKnot(xs, ys, k, 0);
    }
  }

  /** `interpolate(series, times)`: `np.interp` at every time. */
  function Interpolate(s: Series, times: seq<real>): (r: seq<real>)
    requires ValidSeries(s)
    ensures |r| == |times|
  {
    seq(|times|, i requires 0 <= i < |times| => Interp(s.index, s.values, times[i]))
  }

  // ---------------------------------------------------------------- pricing

  /** The three values `price_swap` returns. */
  datatype SwapValue = SwapValue(pv: real, pvFixed: real, pvFloat: real)

  /** `price_swap(notional, fixed_rate, df_series, fwd_series, times, delta)`. */
  function PriceSwap(notional: real, fixedRate: real, dfSeries: Series, fwdSeries: Series,
                     times: seq<real>, delta: real): (v: SwapValue)
    requires ValidSeries(dfSeries) && ValidSeries(fwdSeries)
  {
    var df := Interpolate(dfSeries, times);
    var fwd := Interpolate(fwdSeries, times);
    var pvFxd := notional * fixedRate * delta * Sum(df);
    var pvFlt := notional * delta * SumProducts(df, fwd);
    SwapValue(pvFlt - pvFxd, pvFxd, pvFlt)
  }

  /** `fair_rate(df_series, fwd_series, times, delta)`: the ratio of the
      forward-weighted annuity to the annuity, `None` when the annuity is zero.
      `delta` is not used. */
  function FairRate(dfSeries: Series, fwdSeries: Series, times: seq<real>, delta: real): (k: Option<real>)
    requires ValidSeries(dfSeries) && ValidSeries(fwdSeries)
    ensures var df := Interpolate(dfSeries, times);
            var fwd := Interpolate(fwdSeries, times);
            && (k.None? <==> Sum(df) == 0.0)
            && (k.Some? ==> k.value * Sum(df) == SumProducts(df, fwd))
  {
    var df := Interpolate(dfSeries, times);
    var fwd := Interpolate(fwdSeries, times);
    if Sum(df) == 0.0 then None
    else
      var r := SumProducts(df, fwd) / Sum(df);
      DivCancel(SumProducts(df, fwd), Sum(df), r);
      Some(r)
  }

  /** A swap struck at its fair rate, on the same curve and payment times, is
      worth nothing, whatever accrual fraction either call is given. */
  lemma FairRateZeroesPv(notional: real, dfSeries: Series, fwdSeries: Series, times: seq<real>,
                         delta: real, delta': real)
    requires ValidSeries(dfSeries) && ValidSeries(fwdSeries)
    requires FairRate(dfSeries, fwdSeries, times, delta').Some?
    ensures var k := FairRate(dfSeries, fwdSeries, times, delta').value;
            PriceSwap(notional, k, dfSeries, fwdSeries, times, delta).pv == 0.0
  {
    var df := Interpolate(dfSeries, times);
    var fwd := Interpolate(fwdSeries, times);
    var k := FairRate(dfSeries, fwdSeries, times, delta').value;
    LegsMatch(notional, delta, k, Sum(df), SumProducts(df, fwd));
  }

  lemma LegsMatch(n: real, d: real, k: real, annuity: real, weighted: real)
    requires k * annuity == weighted
    ensures n * d * weighted - n * k * d * annuity == 0.0
  {
    assert n * k * d * annuity == n * d * (k * annuity);
  }

  /** The payer's value falls as the fixed rate rises when the annuity
      `notional * delta * Σdf` is positive, and the fixed leg is the rate times it. */
  lemma PriceSwapInRate(notional: real, k: real, k': real, dfSeries: Series, fwdSeries: Series,
                        times: seq<real>, delta: real)
    requires ValidSeries(dfSeries) && ValidSeries(fwdSeries)
    ensures var annuity := notional * delta * Sum(Interpolate(dfSeries, times));
            && PriceSwap(notional, k, dfSeries, fwdSeries, times, delta).pvFixed == k * annuity
            && (0.0 < annuity && k < k' ==>
                  PriceSwap(notional, k', dfSeries, fwdSeries, times, delta).pv
                    < PriceSwap(notional, k, dfSeries, fwdSeries, times, delta).pv)
  {
    var annuity := notional * delta * Sum(Interpolate(dfSeries, times));
    var v := PriceSwap(notional, k, dfSeries, fwdSeries, times, delta);
    var v' := PriceSwap(notional, k', dfSeries, fwdSeries, times, delta);
    assert v.pvFixed == k * annuity;
    assert v'.pvFixed == k' * annuity;
    if 0.0 < annuity && k < k' {
      ScaleLess(k, k', annuity, v.pvFixed, v'.pvFixed);
    }
  }

  lemma ScaleLess(a: real, b: real, p: real, x: real, y: real)
    requires a < b && 0.0 < p && x == a * p && y == b * p
    ensures x < y
  {
  }

  // ---------------------------------------------------------------- dv01

  /** `df_series * np.exp(-bump * df_series.index)`: every factor scaled by the
      discount of a parallel shift `shift` of continuously compounded rates. */
  function Bumped(s: Series, shift: real, exp: real -> real): (b: Series)
    requires ValidSeries(s)
    ensures ValidSeries(b) && b.index == s.index
  {
    Series(s.index, seq(|s.values|, i requires 0 <= i < |s.values| => s.values[i] * exp(-shift * s.index[i])))
  }

  /** A zero shift leaves the curve as it is. */
  lemma BumpedZero(s: Series, exp: real -> real)
    requires ValidSeries(s) && IsExp(exp)
    ensures Bumped(s, 0.0, exp) == s
  {
    var b := Bumped(s, 0.0, exp);
    forall i | 0 <= i < |s.values|
      ensures b.values[i] == s.values[i]
    {
      assert -0.0 * s.index[i] == 0.0;
    }
  }

  /** A positive shift lowers every positive factor at a positive time, and
      keeps it positive. */
  lemma BumpedLowers(s: Series, shift: real, exp: real -> real, i: nat)
    requires ValidSeries(s) && IsExp(exp)
    requires i < |s.values| && 0.0 < shift && 0.0 < s.index[i] && 0.0 < s.values[i]
    ensures 0.0 < Bumped(s, shift, exp).values[i] < s.values[i]
  {
    var x := -shift * s.index[i];
    NegativeExponent(shift, s.index[i], x);
    ExpBelowOne(exp, x);
    Shrink(s.values[i], exp(x), Bumped(s, shift, exp).values[i]);
  }

  /** A bumped curve still has well-defined forwards. */
  lemma BumpedForwardsDefined(s: Series, shift: real, exp: real -> real)
    requires ValidSeries(s) && IsExp(exp) && ForwardsDefined(s.index, s.values)
    ensures ForwardsDefined(s.index, Bumped(s, shift, exp).values)
  {
    var b := Bumped(s, shift, exp);
    forall i | 0 <= i < |s.values|
      ensures b.values[i] != 0.0
    {
      NonZeroProduct(s.values[i], exp(-shift * s.index[i]), b.values[i]);
    }
  }

  lemma NegativeExponent(shift: real, t: real, x: real)
    requires 0.0 < shift && 0.0 < t && x == -shift * t
    ensures x < 0.0
  {
    PositiveProduct(shift, t, shift * t);
  }

  lemma Shrink(a: real, f: real, y: real)
    requires 0.0 < a && 0.0 < f < 1.0 && y == a * f
    ensures 0.0 < y < a
  {
    PositiveProduct(a, f, y);
    PositiveProduct(a, 1.0 - f, a - y);
  }

  lemma NonZeroProduct(a: real, f: real, y: real)
    requires a != 0.0 && 0.0 < f && y == a * f
    ensures y != 0.0
  {
    if 0.0 < a {
      PositiveProduct(a, f, y);
    } else {
      PositiveProduct(-a, f, -y);
    }
  }

  /** The swap's value on a discount curve, with the forwards implied from it at
      the default frequency and the default accrual fraction, as `dv01` prices it. */
  function PvOnCurve(notional: real, fixedRate: real, dfSeries: Series, times: seq<real>): real
    requires ValidSeries(dfSeries) && ForwardsDefined(dfSeries.index, dfSeries.values)
  {
    var fwd := Series(dfSeries.index, Forwards(dfSeries.index, dfSeries.values, DefaultFreq as real));
    PriceSwap(notional, fixedRate, dfSeries, fwd, times, DefaultDelta).pv
  }

  /** `dv01(notional, fixed_rate, df_series, times, bump)`: the change of value
      under the bumped curve, per unit of bump and of notional. */
  function Dv01(notional: real, fixedRate: real, dfSeries: Series, times: seq<real>, bump: real,
                exp: real -> real): (d: real)
    requires ValidSeries(dfSeries) && ForwardsDefined(dfSeries.index, dfSeries.values) && IsExp(exp)
    requires bump != 0.0 && notional != 0.0
    ensures ForwardsDefined(dfSeries.index, Bumped(dfSeries, bump, exp).values)
    ensures IsPerUnit(d, PvOnCurve(notional, fixedRate, Bumped(dfSeries, bump, exp), times)
                          - PvOnCurve(notional, fixedRate, dfSeries, times), bump, notional)
  {
    BumpedForwardsDefined(dfSeries, bump, exp);
    var pvBase := PvOnCurve(notional, fixedRate, dfSeries, times);
    var pvBump := PvOnCurve(notional, fixedRate, Bumped(dfSeries, bump, exp), times);
    PerUnit(pvBump - pvBase, bump, notional)
  }

  /** `d` is `change` per unit of bump and of notional. */
  predicate IsPerUnit(d: real, change: real, bump: real, notional: real)
  {
    d * bump * notional == change
  }

  /** `change / bump / notional`. */
  function PerUnit(change: real, bump: real, notional: real): (d: real)
    requires bump != 0.0 && notional != 0.0
    ensures IsPerUnit(d, change, bump, notional)
  {
    var q := change / bump;
    DivCancel(change, bump, q);
    DivCancel(q, notional, q / notional);
    q / notional
  }
}
