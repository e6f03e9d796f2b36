/** The discount-factor bootstrap from par yields that both
    interest-rate-swap-pricer/swap_pricer.py (`bootstrap_df`) and
    yield-curve-model/yield_curve.py (`bootstrap_zero_curve`) implement: the first
    tenor is discounted at its simple yield, every later one so that its par bond
    with semi-annual coupons is worth exactly 1. Bills carry no coupon; the two
    programs disagree on what a bill is (up to six months, up to one year), so the
    cut-off is part of the `Scheme`.

    Both programs then give every bill after the first factor exactly 1, whatever
    its yield; the `Corrected` variant discounts every bill at its simple yield. */
module ParBootstrap {
  import opened Numerics

  /** The recurrence as the programs write it, and with bills discounted at their
      simple yield. */
  datatype Variant = AsWritten | Corrected

  /** The tenors in years, the largest tenor that counts as a bill, and the variant. */
  datatype Scheme = Scheme(tenors: seq<real>, billCutoff: real, variant: Variant)

  /** The semi-annual coupon of the par instrument at tenor `t`; bills carry none. */
  function Coupon(s: Scheme, t: real, y: real): (c: real)
    ensures t <= s.billCutoff ==> c == 0.0
    ensures s.billCutoff < t ==> 2.0 * c == y
  {
    if t <= s.billCutoff then 0.0 else y / 2.0
  }

  /** Whether the factor at position `i` discounts its yield simply: the first
      always, and under the correction every bill. */
  predicate SimpleYield(s: Scheme, i: nat)
    requires i < |s.tenors|
  {
    i == 0 || (s.variant == Corrected && s.tenors[i] <= s.billCutoff)
  }

  /** `1 + y * T` at position `i`: simple growth over the tenor. */
  function SimpleGrowth(s: Scheme, par: seq<real>, i: nat): real
    requires i < |par| <= |s.tenors|
  {
    1.0 + par[i] * s.tenors[i]
  }

  /** The step at position `i` has a non-zero divisor. */
  predicate StepDefined(s: Scheme, par: seq<real>, i: nat)
    requires i < |par| <= |s.tenors|
  {
    if SimpleYield(s, i) then SimpleGrowth(s, par, i) != 0.0
    else 1.0 + Coupon(s, s.tenors[i], par[i]) != 0.0
  }

  /** Par yields, at most one per tenor, whose bootstrap never divides by zero. */
  predicate Bootstrappable(s: Scheme, par: seq<real>)
  {
    |par| <= |s.tenors| && forall i :: 0 <= i < |par| ==> StepDefined(s, par, i)
  }

  /** The discount factor at position `|prev|`, given those before it. */
  function NextDf(s: Scheme, par: seq<real>, prev: seq<real>): real
    requires Bootstrappable(s, par) && |prev| < |par|
  {
    var i := |prev|;
    var c := Coupon(s, s.tenors[i], par[i]);
    assert StepDefined(s, par, i);
    if SimpleYield(s, i) then 1.0 / SimpleGrowth(s, par, i)
    else (1.0 - SumScaled(prev, c)) / (1.0 + c)
  }

  /** The first `n` discount factors of the bootstrap. */
  function Bootstrap(s: Scheme, par: seq<real>, n: nat): (disc: seq<real>)
    requires Bootstrappable(s, par) && n <= |par|
    ensures |disc| == n
  {
    if n == 0 then [] else
      var prev := Bootstrap(s, par, n - 1);
      prev + [NextDf(s, par, prev)]
  }

  /** Later factors never change earlier ones. */
  lemma {:induction false} BootstrapPrefix(s: Scheme, par: seq<real>, m: nat, n: nat)
    requires Bootstrappable(s, par) && m <= n <= |par|
    ensures Bootstrap(s, par, n)[..m] == Bootstrap(s, par, m)
    decreases n
  {
    if m < n {
      BootstrapPrefix(s, par, m, n - 1);
      assert Bootstrap(s, par, n)[..n - 1] == Bootstrap(s, par, n - 1);
    }
  }

  /** A par bond paying coupon `c` on an annuity `annuity` and coupon plus
      principal discounted at `d` is worth exactly its face. */
  predicate PricesAtPar(c: real, annuity: real, d: real)
  {
    c * annuity + (1.0 + c) * d == 1.0
  }

  /** `d` discounts one unit grown to `growth`. */
  predicate DiscountsSimply(d: real, growth: real)
  {
    d * growth == 1.0
  }

  lemma DivCancel(a: real, b: real, q: real)
    requires b != 0.0 && q == a / b
    ensures q * b == a
  {
  }

  /** One bootstrap step, on the factors `prev` before it. */
  lemma NextDfIdentity(s: Scheme, par: seq<real>, prev: seq<real>)
    requires Bootstrappable(s, par) && |prev| < |par|
    ensures var i := |prev|;
            var c := Coupon(s, s.tenors[i], par[i]);
            var d := NextDf(s, par, prev);
            && (SimpleYield(s, i) ==> DiscountsSimply(d, SimpleGrowth(s, par, i)))
            && (!SimpleYield(s, i) ==> PricesAtPar(c, Sum(prev), d))
  {
    var i := |prev|;
    var c := Coupon(s, s.tenors[i], par[i]);
    var d := NextDf(s, par, prev);
    assert StepDefined(s, par, i);
    if SimpleYield(s, i) {
      DivCancel(1.0, SimpleGrowth(s, par, i), d);
    } else {
      DivCancel(1.0 - SumScaled(prev, c), 1.0 + c, d);
      SumScaledIsScaledSum(prev, c);
    }
  }

  /** Factor `i` of the whole bootstrap is the step on the first `i`. */
  lemma BootstrapAt(s: Scheme, par: seq<real>, i: nat)
    requires Bootstrappable(s, par) && i < |par|
    ensures Bootstrap(s, par, |par|)[..i] == Bootstrap(s, par, i)
    ensures Bootstrap(s, par, |par|)[i] == NextDf(s, par, Bootstrap(s, par, i))
  {
    var disc := Bootstrap(s, par, |par|);
    BootstrapPrefix(s, par, i + 1, |par|);
    assert disc[..i] == disc[..i + 1][..i];
    assert disc[i] == disc[..i + 1][i];
  }

  /** The bootstrap's defining identities: a factor that discounts its yield
      simply (the first one, and under the correction every bill) satisfies
      `d * (1 + y * T) == 1`; every other factor prices its par bond at 1 (coupon
      `c` on every earlier factor, coupon plus principal on its own). */
  lemma BootstrapIdentities(s: Scheme, par: seq<real>, i: nat)
    requires Bootstrappable(s, par) && i < |par|
    ensures var disc := Bootstrap(s, par, |par|);
            var c := Coupon(s, s.tenors[i], par[i]);
            && (SimpleYield(s, i) ==> DiscountsSimply(disc[i], SimpleGrowth(s, par, i)))
            && (!SimpleYield(s, i) ==> PricesAtPar(c, Sum(disc[..i]), disc[i]))
  {
    var disc := Bootstrap(s, par, |par|);
    var prev := Bootstrap(s, par, i);
    BootstrapAt(s, par, i);
    assert disc[..i] == prev && disc[i] == NextDf(s, par, prev);
    assert |prev| == i;
    NextDfIdentity(s, par, prev);
  }

  lemma BillIdentity(c: real, annuity: real, d: real)
    requires c == 0.0 && PricesAtPar(c, annuity, d)
    ensures d == 1.0
  {
  }

  lemma PositiveProduct(a: real, b: real, y: real)
    requires 0.0 < a && 0.0 < b && y == a * b
    ensures 0.0 < y
  {
  }

  lemma BelowOne(d: real, p: real, g: real)
    requires 0.0 < p && g == 1.0 + p && DiscountsSimply(d, g)
    ensures 0.0 < d < 1.0
  {
    var e := d * p;
    PositiveProduct(d, p, e);
    assert d + e == 1.0;
  }

  /** As written, a bill after the first tenor carries coupon 0 and is then
      priced by the par identity, which leaves its factor at exactly 1 whatever
      its yield. */
  lemma AsWrittenBillAtPar(s: Scheme, par: seq<real>, i: nat)
    requires s.variant == AsWritten && Bootstrappable(s, par)
    requires 0 < i < |par| && s.tenors[i] <= s.billCutoff
    ensures Bootstrap(s, par, |par|)[i] == 1.0
  {
    var disc := Bootstrap(s, par, |par|);
    BootstrapIdentities(s, par, i);
    BillIdentity(Coupon(s, s.tenors[i], par[i]), Sum(disc[..i]), disc[i]);
  }

  /** Corrected, every bill is discounted at its own simple yield, so a positive
      bill yield at a positive tenor gives a factor strictly between 0 and 1. */
  lemma CorrectedBillDiscounts(s: Scheme, par: seq<real>, i: nat)
    requires s.variant == Corrected && Bootstrappable(s, par)
    requires i < |par| && 0.0 < s.tenors[i] <= s.billCutoff
    ensures var disc := Bootstrap(s, par, |par|);
            && DiscountsSimply(disc[i], SimpleGrowth(s, par, i))
            && (0.0 < par[i] ==> 0.0 < disc[i] < 1.0)
  {
    var disc := Bootstrap(s, par, |par|);
    assert DiscountsSimply(disc[i], SimpleGrowth(s, par, i)) by {
      assert SimpleYield(s, i);
      BootstrapIdentities(s, par, i);
    }
    if 0.0 < par[i] {
      BillBelowOne(s, par, i, disc[i]);
    }
  }

  lemma BillBelowOne(s: Scheme, par: seq<real>, i: nat, d: real)
    requires i < |par| <= |s.tenors| && 0.0 < par[i] && 0.0 < s.tenors[i]
    requires DiscountsSimply(d, SimpleGrowth(s, par, i))
    ensures 0.0 < d < 1.0
  {
    var p := par[i] * s.tenors[i];
    PositiveProduct(par[i], s.tenors[i], p);
    BelowOne(d, p, SimpleGrowth(s, par, i));
  }
}
