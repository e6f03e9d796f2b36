/** The scenario run of risk_engine_cpp (`sre::RiskEngine::run`): the portfolio's
    value on the base curve, on the curve shifted by the scenario, and its DV01 and
    convexity from one-basis-point bumps either way. The engine and its portfolio
    are not changed by a run, so they are values here; `Bond` is the only
    instrument the program defines, so the portfolio is a sequence of bonds. */
module RiskEngine {
  import opened Transcendental
  import opened RiskCurve
  import opened RiskBond

  /** `Scenario{name, parallelShift_bp}`. */
  datatype Scenario = Scenario(name: string, parallelShiftBp: real)

  /** `ScenarioResult{name, pv_base, pv_shocked, dv01, convexity}`. */
  datatype ScenarioResult = ScenarioResult(name: string, pvBase: real, pvShocked: real, dv01: real, convexity: real)

  /** The engine's base curve and portfolio. */
  datatype Engine = Engine(baseCurve: YieldCurve, portfolio: seq<Bond>)

  /** Every bond has a payment, and a non-empty portfolio is priced on a non-empty
      curve (pricing reads the curve's last entry). */
  predicate Priceable(portfolio: seq<Bond>, c: YieldCurve)
  {
    && (forall i :: 0 <= i < |portfolio| ==> HasPayments(portfolio[i]))
    && (portfolio != [] ==> c.df != map[])
  }

  /** The value `calc` computes: the sum of every bond's NPV, in portfolio order. */
  function PortfolioValue(portfolio: seq<Bond>, c: YieldCurve): real
    requires Priceable(portfolio, c)
  {
    if portfolio == [] then 0.0
    else
      var init := portfolio[..|portfolio| - 1];
      assert Priceable(init, c);
      PortfolioValue(init, c) + PresentValue(Schedule(portfolio[|portfolio| - 1]), c)
  }

  /** The lambda `calc`: adds `npv(yc)` over the portfolio. */
  method Calc(portfolio: seq<Bond>, c: YieldCurve) returns (v: real)
    requires Priceable(portfolio, c)
    ensures v == PortfolioValue(portfolio, c)
  {
    v := 0.0;
    for i := 0 to |portfolio|
      invariant Priceable(portfolio[..i], c)
      invariant v == PortfolioValue(portfolio[..i], c)
    {
      var pv := Npv(portfolio[i], c);
      assert portfolio[..i + 1][..i] == portfolio[..i];
      v := v + pv;
    }
    assert portfolio[..|portfolio|] == portfolio;
  }

  /** A bumped curve has the keys of the curve it came from. */
  lemma BumpPriceable(portfolio: seq<Bond>, c: YieldCurve, shiftBp: real, exp: real -> real)
    requires Priceable(portfolio, c)
    ensures Priceable(portfolio, Bump(c, shiftBp, exp))
  {
    if portfolio != [] {
      assert c.df.Keys != {};
      assert Bump(c, shiftBp, exp).df.Keys == c.df.Keys;
    }
  }

  /** The result of `run(s)`, as a value. */
  function Evaluate(e: Engine, s: Scenario, exp: real -> real): ScenarioResult
    requires Priceable(e.portfolio, e.baseCurve)
  {
    BumpPriceable(e.portfolio, e.baseCurve, s.parallelShiftBp, exp);
    BumpPriceable(e.portfolio, e.baseCurve, 1.0, exp);
    BumpPriceable(e.portfolio, e.baseCurve, -1.0, exp);
    var pv0 := PortfolioValue(e.portfolio, e.baseCurve);
    var pv1 := PortfolioValue(e.portfolio, Bump(e.baseCurve, s.parallelShiftBp, exp));
    var up := PortfolioValue(e.portfolio, Bump(e.baseCurve, 1.0, exp));
    var down := PortfolioValue(e.portfolio, Bump(e.baseCurve, -1.0, exp));
    ScenarioResult(s.name, pv0, pv1, (down - up) / 2.0, up + down - 2.0 * pv0)
  }

  /** `run(s)`: prices the portfolio on the base curve, on the scenario's shifted
      curve and on the curves bumped one basis point up and down. */
  method Run(e: Engine, s: Scenario, exp: real -> real) returns (r: ScenarioResult)
    requires Priceable(e.portfolio, e.baseCurve)
    ensures r == Evaluate(e, s, exp)
  {
    var shock := Bumped(e.baseCurve, s.parallelShiftBp, exp);
    BumpPriceable(e.portfolio, e.baseCurve, s.parallelShiftBp, exp);
    var pv0 := Calc(e.portfolio, e.baseCurve);
    var pv1 := Calc(e.portfolio, shock);
    var up := Bumped(e.baseCurve, 1.0, exp);
    var down := Bumped(e.baseCurve, -1.0, exp);
    BumpPriceable(e.portfolio, e.baseCurve, 1.0, exp);
    BumpPriceable(e.portfolio, e.baseCurve, -1.0, exp);
    var pvDown := Calc(e.portfolio, down);
    var pvUp := Calc(e.portfolio, up);
    var dv01 := (pvDown - pvUp) / 2.0;
    var pvUp' := Calc(e.portfolio, up);
    var pvDown' := Calc(e.portfolio, down);
    var convex := pvUp' + pvDown' - 2.0 * pv0;
    r := ScenarioResult(s.name, pv0, pv1, dv01, convex);
  }

  /** Bumping the curve scales the portfolio's value by the bump factor. */
  lemma {:induction false} PortfolioBumped(portfolio: seq<Bond>, c: YieldCurve, shiftBp: real, exp: real -> real)
    requires Priceable(portfolio, c)
    ensures Priceable(portfolio, Bump(c, shiftBp, exp))
    ensures Scales(PortfolioValue(portfolio, Bump(c, shiftBp, exp)), PortfolioValue(portfolio, c), BumpFactor(shiftBp, exp))
  {
    BumpPriceable(portfolio, c, shiftBp, exp);
    if portfolio != [] {
      var init, last := portfolio[..|portfolio| - 1], portfolio[|portfolio| - 1];
      var b := Bump(c, shiftBp, exp);
      assert Priceable(init, c);
      PortfolioBumped(init, c, shiftBp, exp);
      PresentValueBumped(Schedule(last), c, shiftBp, exp);
      ScalesSum(PortfolioValue(init, c), PortfolioValue(init, b),
                PresentValue(Schedule(last), c), PresentValue(Schedule(last), b), BumpFactor(shiftBp, exp));
    }
  }

  /** A portfolio of bonds with non-negative coupons and positive frequencies has a
      positive value on a curve of positive discount factors. */
  lemma {:induction false} PortfolioPositive(portfolio: seq<Bond>, c: YieldCurve)
    requires Priceable(portfolio, c) && portfolio != []
    requires forall i :: 0 <= i < |portfolio| ==> 0.0 <= portfolio[i].coupon && 0 < portfolio[i].freq
    requires forall k :: k in c.df ==> 0.0 < c.df[k]
    ensures 0.0 < PortfolioValue(portfolio, c)
  {
    var init, last := portfolio[..|portfolio| - 1], portfolio[|portfolio| - 1];
    NpvPositive(last, c);
    if init != [] {
      PortfolioPositive(init, c);
    }
  }

  /** An empty portfolio is worth nothing on every curve, so every figure of the
      result is zero. */
  lemma EvaluateEmpty(e: Engine, s: Scenario, exp: real -> real)
    requires e.portfolio == []
    ensures Evaluate(e, s, exp) == ScenarioResult(s.name, 0.0, 0.0, 0.0, 0.0)
  {
  }

  /** A zero shift leaves the portfolio's value unchanged. */
  lemma EvaluateZeroShift(e: Engine, s: Scenario, exp: real -> real)
    requires Priceable(e.portfolio, e.baseCurve) && IsExp(exp) && s.parallelShiftBp == 0.0
    ensures Evaluate(e, s, exp).pvShocked == Evaluate(e, s, exp).pvBase
  {
    BumpZero(e.baseCurve, exp);
  }

  /** The result carries the scenario's name; the shocked value is the base value
      scaled by `exp(-shift * 1e-4)`, and the convexity is the base value scaled by
      the sum of the two one-point factors less 2. */
  lemma EvaluateScales(e: Engine, s: Scenario, exp: real -> real)
    requires Priceable(e.portfolio, e.baseCurve)
    ensures var r := Evaluate(e, s, exp);
            && r.name == s.name
            && Scales(r.pvShocked, r.pvBase, BumpFactor(s.parallelShiftBp, exp))
            && Scales(r.convexity, r.pvBase, BumpFactor(1.0, exp) + BumpFactor(-1.0, exp) - 2.0)
  {
    var p, c := e.portfolio, e.baseCurve;
    PortfolioBumped(p, c, s.parallelShiftBp, exp);
    PortfolioBumped(p, c, 1.0, exp);
    PortfolioBumped(p, c, -1.0, exp);
    ConvexityScales(PortfolioValue(p, c), PortfolioValue(p, Bump(c, 1.0, exp)), PortfolioValue(p, Bump(c, -1.0, exp)),
                    BumpFactor(1.0, exp), BumpFactor(-1.0, exp));
  }

  lemma ConvexityScales(pv0: real, up: real, down: real, fUp: real, fDown: real)
    requires Scales(up, pv0, fUp) && Scales(down, pv0, fDown)
    ensures Scales(up + down - 2.0 * pv0, pv0, fUp + fDown - 2.0)
  {
  }

  /** A portfolio of positive value loses value when rates rise and gains when they
      fall, so its DV01 is positive. */
  lemma EvaluateDv01Positive(e: Engine, s: Scenario, exp: real -> real)
    requires Priceable(e.portfolio, e.baseCurve) && IsExp(exp)
    requires 0.0 < Evaluate(e, s, exp).pvBase
    ensures 0.0 < Evaluate(e, s, exp).dv01
  {
    var p, c := e.portfolio, e.baseCurve;
    var pv0 := PortfolioValue(p, c);
    PortfolioBumped(p, c, 1.0, exp);
    PortfolioBumped(p, c, -1.0, exp);
    ExpBelowOne(exp, -1.0 * BasisPoint);
    ExpAboveOne(exp, -(-1.0) * BasisPoint);
    ScaledBelow(PortfolioValue(p, Bump(c, 1.0, exp)), pv0, BumpFactor(1.0, exp));
    ScaledAbove(PortfolioValue(p, Bump(c, -1.0, exp)), pv0, BumpFactor(-1.0, exp));
  }

  lemma ScaledBelow(y: real, x: real, f: real)
    requires Scales(y, x, f) && 0.0 < x && f < 1.0
    ensures y < x
  {
  }

  lemma ScaledAbove(y: real, x: real, f: real)
    requires Scales(y, x, f) && 0.0 < x && 1.0 < f
    ensures x < y
  {
  }
}
