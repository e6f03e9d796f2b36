/** The fixed-coupon bond of risk_engine_cpp (`sre::Bond`): its cash-flow schedule
    and its present value on a `RiskCurve.YieldCurve`. A bond's fields are set once
    by its constructor, so it is a value here; `face_` is always 100. */
module RiskBond {
  import opened Numerics
  import opened Transcendental
  import opened RiskCurve

  /** `face_{100.0}`: the face value of every bond. */
  const Face: real := 100.0

  /** The default coupon frequency of the constructor. */
  const DefaultFrequency: int := 2

  /** `Bond(coupon, tenorYears, frequency)`: an annual coupon rate, a tenor in whole
      years and a number of payments per year. */
  datatype Bond = Bond(coupon: real, tenorYears: int, freq: int)

  /** `Cashflow{days, amount}`. */
  datatype Cashflow = Cashflow(days: int, amount: real)

  /** `tenor_y_ * freq_`: the number of payments. */
  function Periods(b: Bond): int
  {
    b.tenorYears * b.freq
  }

  /** `cashflows()` reads `v.back()`, so a bond needs at least one payment. */
  predicate HasPayments(b: Bond)
  {
    1 <= Periods(b)
  }

  lemma FrequencyNonZero(b: Bond)
    requires HasPayments(b)
    ensures b.freq != 0
  {
  }

  /** `coupon_ / freq_ * face_`: the coupon paid on each date. */
  function CouponAmount(b: Bond): real
    requires HasPayments(b)
  {
    FrequencyNonZero(b);
    b.coupon / b.freq as real * Face
  }

  /** `365.0 / freq_ * i`: the time of payment `i`, counted from 1, in days. */
  function DayFraction(b: Bond, i: int): real
    requires HasPayments(b)
  {
    FrequencyNonZero(b);
    365.0 / b.freq as real * i as real
  }

  /** `int(365.0 / freq_ * i)`: the day of payment `i`. */
  function PaymentDay(b: Bond, i: int): int
    requires HasPayments(b)
  {
    Trunc(DayFraction(b, i))
  }

  /** The first `n` cash flows that the loop of `cashflows()` pushes: payment
      `i` on day `PaymentDay(b, i)` with the coupon as its amount. */
  function Coupons(b: Bond, n: nat): (v: seq<Cashflow>)
    requires HasPayments(b)
    ensures |v| == n
  {
    if n == 0 then [] else Coupons(b, n - 1) + [Cashflow(PaymentDay(b, n), CouponAmount(b))]
  }

  lemma {:induction false} CouponsAt(b: Bond, n: nat, k: nat)
    requires HasPayments(b) && k < n
    ensures Coupons(b, n)[k] == Cashflow(PaymentDay(b, k + 1), CouponAmount(b))
  {
    if k < n - 1 {
      CouponsAt(b, n - 1, k);
    }
  }

  /** The schedule that `cashflows()` returns: the pushed coupons, with the face
      value added to the last one. */
  function Schedule(b: Bond): (v: seq<Cashflow>)
    requires HasPayments(b)
    ensures |v| == Periods(b)
  {
    var v := Coupons(b, Periods(b));
    var last := v[|v| - 1];
    v[|v| - 1 := Cashflow(last.days, last.amount + Face)]
  }

  /** Cash flow `k` (counted from 0) falls on day `PaymentDay(b, k + 1)` and pays
      the coupon; the last one pays the face value as well. */
  lemma ScheduleAt(b: Bond, k: nat)
    requires HasPayments(b) && k < Periods(b)
    ensures Schedule(b)[k].days == PaymentDay(b, k + 1)
    ensures k + 1 < Periods(b) ==> Schedule(b)[k].amount == CouponAmount(b)
    ensures k + 1 == Periods(b) ==> Schedule(b)[k].amount == CouponAmount(b) + Face
  {
    CouponsAt(b, Periods(b), k);
  }

  /** `cashflows()`: one coupon per period pushed in date order, then the face
      value added to the last one. */
  method Cashflows(b: Bond) returns (v: seq<Cashflow>)
    requires HasPayments(b)
    ensures v == Schedule(b)
  {
    var periods := b.tenorYears * b.freq;
    var coup := b.coupon / b.freq as real * Face;
    v := [];
    for i := 1 to periods + 1
      invariant v == Coupons(b, i - 1)
    {
      var days := Trunc(365.0 / b.freq as real * i as real);
      assert Cashflow(days, coup) == Cashflow(PaymentDay(b, i), CouponAmount(b));
      v := v + [Cashflow(days, coup)];
    }
    assert v == Coupons(b, Periods(b));
    var last := v[|v| - 1];
    v := v[|v| - 1 := Cashflow(last.days, last.amount + Face)];
  }

  /** With a positive frequency the payment days never decrease. */
  lemma PaymentDaysNonDecreasing(b: Bond, j: nat, k: nat)
    requires HasPayments(b) && 0 < b.freq && j <= k < Periods(b)
    ensures Schedule(b)[j].days <= Schedule(b)[k].days
  {
    ScheduleAt(b, j);
    ScheduleAt(b, k);
    DayFractionMonotone(b, j + 1, k + 1);
    TruncMonotone(DayFraction(b, j + 1), DayFraction(b, k + 1));
  }

  lemma DayFractionMonotone(b: Bond, i: int, i': int)
    requires HasPayments(b) && 0 < b.freq && i <= i'
    ensures DayFraction(b, i) <= DayFraction(b, i')
  {
    MulMonotone(365.0 / b.freq as real, i as real, i' as real);
  }

  lemma MulMonotone(a: real, x: real, y: real)
    requires 0.0 <= a && x <= y
    ensures a * x <= a * y
  {
  }

  /** The last payment falls on day `365 * tenor`, the bond's maturity. */
  lemma LastPaymentAtMaturity(b: Bond)
    requires HasPayments(b)
    ensures Schedule(b)[Periods(b) - 1].days == 365 * b.tenorYears
  {
    var f := b.freq as real;
    var step := 365.0 / f;
    assert step * f == 365.0;
    assert Periods(b) as real == b.tenorYears as real * f;
    assert DayFraction(b, Periods(b)) == (365 * b.tenorYears) as real by {
      assert step * (b.tenorYears as real * f) == (step * f) * b.tenorYears as real;
    }
    TruncOfInt(365 * b.tenorYears);
    ScheduleAt(b, Periods(b) - 1);
  }

  /** `amount * discountFactor(days)`: one discounted cash flow. */
  function Discounted(cf: Cashflow, c: YieldCurve): real
    requires c.df != map[]
  {
    cf.amount * DiscountFactor(c, cf.days)
  }

  /** `Σ amount * discountFactor(days)` over `flows`, accumulated in order. */
  function PresentValue(flows: seq<Cashflow>, c: YieldCurve): real
    requires c.df != map[]
  {
    if flows == [] then 0.0
    else PresentValue(flows[..|flows| - 1], c) + Discounted(flows[|flows| - 1], c)
  }

  lemma PresentValueStep(flows: seq<Cashflow>, i: nat, c: YieldCurve)
    requires c.df != map[] && i < |flows|
    ensures PresentValue(flows[..i + 1], c) == PresentValue(flows[..i], c) + Discounted(flows[i], c)
  {
    assert flows[..i + 1][..i] == flows[..i];
  }

  /** `npv(yc)`: walks the schedule and adds each discounted amount. The curve
      must not be empty, since its lookup reads its last entry. */
  method Npv(b: Bond, c: YieldCurve) returns (pv: real)
    requires HasPayments(b) && c.df != map[]
    ensures pv == PresentValue(Schedule(b), c)
  {
    var flows := Cashflows(b);
    pv := 0.0;
    for i := 0 to |flows|
      invariant pv == PresentValue(flows[..i], c)
    {
      var cf := flows[i];
      var term := cf.amount * DiscountFactor(c, cf.days);
      assert term == Discounted(flows[i], c);
      PresentValueStep(flows, i, c);
      pv := pv + term;
    }
    assert flows[..|flows|] == flows;
  }

  /** Discounted amounts that are each non-negative add up to a non-negative
      value, and to a positive one when the last of them is positive. */
  lemma {:induction false} PresentValueSign(flows: seq<Cashflow>, c: YieldCurve)
    requires c.df != map[] && forall k :: k in c.df ==> 0.0 < c.df[k]
    requires forall i :: 0 <= i < |flows| ==> 0.0 <= flows[i].amount
    ensures 0.0 <= PresentValue(flows, c)
    ensures flows != [] && 0.0 < flows[|flows| - 1].amount ==> 0.0 < PresentValue(flows, c)
  {
    if flows != [] {
      var last := flows[|flows| - 1];
      PresentValueSign(flows[..|flows| - 1], c);
      DiscountFactorPositive(c, last.days);
      NonNegativeProduct(last.amount, DiscountFactor(c, last.days), Discounted(last, c));
    }
  }

  lemma NonNegativeProduct(a: real, d: real, y: real)
    requires 0.0 <= a && 0.0 < d && y == a * d
    ensures 0.0 <= y
    ensures 0.0 < a ==> 0.0 < y
  {
  }

  /** A bond with a non-negative coupon and a positive frequency has a positive
      NPV on a curve of positive discount factors. */
  lemma NpvPositive(b: Bond, c: YieldCurve)
    requires HasPayments(b) && 0.0 <= b.coupon && 0 < b.freq
    requires c.df != map[] && forall k :: k in c.df ==> 0.0 < c.df[k]
    ensures 0.0 < PresentValue(Schedule(b), c)
  {
    var v := Schedule(b);
    assert 0.0 <= CouponAmount(b) by {
      NonNegativeQuotient(b.coupon, b.freq as real);
    }
    forall i | 0 <= i < |v|
      ensures 0.0 <= v[i].amount
    {
      ScheduleAt(b, i);
    }
    ScheduleAt(b, |v| - 1);
    PresentValueSign(v, c);
  }

  /** The "PV positive" test case: a one-year 5% semi-annual bond on the curve
      {0: 1.0, 365: 0.99} has a positive NPV. */
  lemma TestCasePvPositive()
    ensures var b, c := Bond(0.05, 1, DefaultFrequency), YieldCurve(map[0 := 1.0, 365 := 0.99]);
            HasPayments(b) && 0 in c.df && 0.0 < PresentValue(Schedule(b), c)
  {
    var b, c := Bond(0.05, 1, DefaultFrequency), YieldCurve(map[0 := 1.0, 365 := 0.99]);
    assert 0 in c.df && 365 in c.df;
    assert forall k :: k in c.df ==> k == 0 || k == 365;
    NpvPositive(b, c);
  }

  lemma NonNegativeQuotient(a: real, f: real)
    requires 0.0 <= a && 0.0 < f
    ensures 0.0 <= a / f * Face
  {
  }

  /** Bumping the curve scales each discounted cash flow by the bump factor. */
  lemma DiscountedBumped(cf: Cashflow, c: YieldCurve, shiftBp: real, exp: real -> real)
    requires c.df != map[]
    ensures Scales(Discounted(cf, Bump(c, shiftBp, exp)), Discounted(cf, c), BumpFactor(shiftBp, exp))
  {
    DiscountFactorBumped(c, cf.days, shiftBp, exp);
    ScalesProduct(cf.amount, DiscountFactor(c, cf.days), DiscountFactor(Bump(c, shiftBp, exp), cf.days), BumpFactor(shiftBp, exp));
  }

  lemma ScalesProduct(a: real, d: real, d': real, f: real)
    requires Scales(d', d, f)
    ensures Scales(a * d', a * d, f)
  {
  }

  /** Bumping the curve scales the present value by the bump factor. */
  lemma {:induction false} PresentValueBumped(flows: seq<Cashflow>, c: YieldCurve, shiftBp: real, exp: real -> real)
    requires c.df != map[]
    ensures Scales(PresentValue(flows, Bump(c, shiftBp, exp)), PresentValue(flows, c), BumpFactor(shiftBp, exp))
  {
    if flows != [] {
      var init, last := flows[..|flows| - 1], flows[|flows| - 1];
      var b := Bump(c, shiftBp, exp);
      PresentValueBumped(init, c, shiftBp, exp);
      DiscountedBumped(last, c, shiftBp, exp);
      ScalesSum(PresentValue(init, c), PresentValue(init, b), Discounted(last, c), Discounted(last, b), BumpFactor(shiftBp, exp));
    }
  }

  lemma ScalesSum(p: real, p': real, t: real, t': real, f: real)
    requires Scales(p', p, f) && Scales(t', t, f)
    ensures Scales(p' + t', p + t, f)
  {
  }
}
