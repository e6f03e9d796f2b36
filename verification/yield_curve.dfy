/** The zero-coupon bootstrap of yield-curve-model/yield_curve.py
    (`bootstrap_zero_curve`): par yields in percent at eleven fixed tenors become
    discount factors. Here bills are the tenors up to one year. The zero rates
    `disc ** (-1 / tenors) - 1` need a real power and are not modelled; the
    Nelson-Siegel fit, the forecasts and the plots are not part of this model. */
module YieldCurve {
  import opened Numerics
  import opened ParBootstrap

  /** The tenors of `bootstrap_zero_curve`: 1M, 3M, 6M, 1Y, 2Y, 3Y, 5Y, 7Y, 10Y,
      20Y and 30Y. */
  const Tenors: seq<real> := [1.0 / 12.0, 3.0 / 12.0, 6.0 / 12.0, 1.0, 2.0, 3.0, 5.0, 7.0, 10.0, 20.0, 30.0]

  /** The bootstrap of `bootstrap_zero_curve`: coupons start above one year. */
  function ZeroScheme(v: Variant): Scheme
  {
    Scheme(Tenors, 1.0, v)
  }

  /** `par_ylds.values / 100`: percent to decimal. */
  function Decimal(parYlds: seq<real>): (par: seq<real>)
    ensures |par| == |parYlds|
    ensures forall i :: 0 <= i < |par| ==> par[i] * 100.0 == parYlds[i]
  {
    seq(|parYlds|, i requires 0 <= i < |parYlds| => parYlds[i] / 100.0)
  }

  /** `bootstrap_zero_curve(par_ylds)`: one discount factor per tenor, filled in
      tenor order; the row of par yields has one entry per tenor. */
  method BootstrapZeroCurve(parYlds: seq<real>, v: Variant) returns (disc: array<real>)
    requires |parYlds| == |Tenors| && Bootstrappable(ZeroScheme(v), Decimal(parYlds))
    ensures fresh(disc)
    ensures disc[..] == Bootstrap(ZeroScheme(v), Decimal(parYlds), |Tenors|)
  {
    var tenors := Tenors;
    var par := Decimal(parYlds);
    var s := ZeroScheme(v);
    disc := new real[|par|];
    for i := 0 to |tenors|
      invariant disc[..i] == Bootstrap(s, par, i)
    {
      var prev := disc[..i];
      var t := tenors[i];
      var c := if t > 1.0 then par[i] / 2.0 else 0.0;
      assert c == Coupon(s, t, par[i]) && StepDefined(s, par, i);
      var d;
      if SimpleYield(s, i) {
        d := 1.0 / SimpleGrowth(s, par, i);
      } else {
        var pvCoupons := SumScaled(prev, c);
        d := (1.0 - pvCoupons) / (1.0 + c);
      }
      assert d == NextDf(s, par, prev);
      disc[i] := d;
      assert disc[..i + 1] == prev + [d];
    }
  }

  /** The one-month bill is discounted simply at its decimal yield. */
  lemma FirstFactorSimple(parYlds: seq<real>, v: Variant)
    requires |parYlds| == |Tenors| && Bootstrappable(ZeroScheme(v), Decimal(parYlds))
    ensures var disc := Bootstrap(ZeroScheme(v), Decimal(parYlds), |Tenors|);
            DiscountsSimply(disc[0], 1.0 + Decimal(parYlds)[0] * (1.0 / 12.0))
  {
    BootstrapIdentities(ZeroScheme(v), Decimal(parYlds), 0);
  }

  /** Every tenor above one year prices its par bond at 1, with half its decimal
      yield as the coupon. */
  lemma CouponFactorsAtPar(parYlds: seq<real>, v: Variant, i: nat)
    requires |parYlds| == |Tenors| && Bootstrappable(ZeroScheme(v), Decimal(parYlds))
    requires 4 <= i < |Tenors|
    ensures var disc := Bootstrap(ZeroScheme(v), Decimal(parYlds), |Tenors|);
            var c := Decimal(parYlds)[i] / 2.0;
            PricesAtPar(c, Sum(disc[..i]), disc[i])
  {
    assert 1.0 < Tenors[i];
    BootstrapIdentities(ZeroScheme(v), Decimal(parYlds), i);
  }

  /** As written, the 3M, 6M and 1Y factors are exactly 1 whatever their yields. */
  lemma AsWrittenBillsAtPar(parYlds: seq<real>)
    requires |parYlds| == |Tenors| && Bootstrappable(ZeroScheme(AsWritten), Decimal(parYlds))
    ensures var disc := Bootstrap(ZeroScheme(AsWritten), Decimal(parYlds), |Tenors|);
            disc[1] == 1.0 && disc[2] == 1.0 && disc[3] == 1.0
  {
    var s, par := ZeroScheme(AsWritten), Decimal(parYlds);
    AsWrittenBillAtPar(s, par, 1);
    AsWrittenBillAtPar(s, par, 2);
    AsWrittenBillAtPar(s, par, 3);
  }
}
