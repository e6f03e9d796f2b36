/** The step yield curve of risk_engine_cpp (`sre::YieldCurve`): discount factors
    keyed by a day count, looked up with no interpolation, and bumped in parallel
    by a number of basis points. The curve is never changed after construction,
    so it is a value here; `bumped` builds a new one. */
module RiskCurve {
  import opened Outcomes
  import opened Transcendental

  /** The curve's `std::map<int,double>` from day count to discount factor. */
  datatype YieldCurve = YieldCurve(df: map<int, real>)

  /** One basis point. */
  const BasisPoint: real := 0.0001

  /** `m` is the least element of `s`. */
  predicate IsLeast(m: int, s: set<int>)
  {
    m in s && forall k :: k in s ==> m <= k
  }

  /** `m` is the greatest element of `s`. */
  predicate IsGreatest(m: int, s: set<int>)
  {
    m in s && forall k :: k in s ==> k <= m
  }

  lemma HasMember(s: set<int>)
    requires s != {}
    ensures exists x :: x in s
  {
    assert (forall x :: x !in s) ==> s == {};
  }

  /** Every finite non-empty set of integers has a least and a greatest element. */
  lemma {:induction false} ExtremesExist(s: set<int>)
    requires s != {}
    ensures exists m :: IsLeast(m, s)
    ensures exists m :: IsGreatest(m, s)
    decreases |s|
  {
    HasMember(s);
    var x :| x in s;
    var rest := s - {x};
    assert forall k :: k in s ==> k == x || k in rest;
    if rest == {} {
      assert IsLeast(x, s) && IsGreatest(x, s);
    } else {
      ExtremesExist(rest);
      var lo :| IsLeast(lo, rest);
      var hi :| IsGreatest(hi, rest);
      assert IsLeast(if x < lo then x else lo, s);
      assert IsGreatest(if hi < x then x else hi, s);
    }
  }

  /** The least element of a non-empty set. */
  function Least(s: set<int>): (m: int)
    requires s != {}
    ensures IsLeast(m, s)
  {
    ExtremesExist(s);
    var m :| IsLeast(m, s);
    m
  }

  /** The greatest element of a non-empty set. */
  function Greatest(s: set<int>): (m: int)
    requires s != {}
    ensures IsGreatest(m, s)
  {
    ExtremesExist(s);
    var m :| IsGreatest(m, s);
    m
  }

  /** `df_.lower_bound(days)`: the smallest key not below `days`, or the end of
      the map when every key is below it. */
  function LowerBound(c: YieldCurve, days: int): (r: Option<int>)
    ensures r.None? <==> forall k :: k in c.df ==> k < days
    ensures r.Some? ==> r.value in c.df && days <= r.value
    ensures r.Some? ==> forall k :: k in c.df && days <= k ==> r.value <= k
  {
    if forall k :: k in c.df ==> k < days then None
    else
      var ks := KeysFrom(c, days);
      Some(Least(ks))
  }

  /** The keys at or after `days`. */
  function KeysFrom(c: YieldCurve, days: int): (ks: set<int>)
    ensures forall k :: k in ks <==> k in c.df && days <= k
  {
    set k | k in c.df.Keys && days <= k
  }

  /** The key whose factor `discountFactor(days)` returns: the first key at or
      after `days` when there is one, and otherwise the last key. An empty curve
      has no last key, so the curve must be non-empty. */
  function LookupKey(c: YieldCurve, days: int): (k: int)
    requires c.df != map[]
    ensures k in c.df
    ensures days <= k ==> forall j :: j in c.df && days <= j ==> k <= j
    ensures k < days ==> forall j :: j in c.df ==> j <= k
  {
    match LowerBound(c, days)
    case Some(k) => k
    case None => Greatest(c.df.Keys)
  }

  /** `discountFactor(days)`: the factor at the lookup key, with no interpolation. */
  function DiscountFactor(c: YieldCurve, days: int): real
    requires c.df != map[]
  {
    c.df[LookupKey(c, days)]
  }

  /** The lookup is a step function: at any `days` up to a key `k` with no key in
      between, it returns the factor at `k`; in particular it is exact at a key. */
  lemma DiscountFactorStep(c: YieldCurve, days: int, k: int)
    requires k in c.df && days <= k
    requires forall j :: j in c.df && days <= j ==> k <= j
    ensures DiscountFactor(c, days) == c.df[k]
  {
    var l := LookupKey(c, days);
    assert l <= k && k <= l;
  }

  /** Beyond the last key the lookup returns the last key's factor. */
  lemma DiscountFactorBeyond(c: YieldCurve, days: int, last: int)
    requires last in c.df && forall k :: k in c.df ==> k <= last
    requires last < days
    ensures DiscountFactor(c, days) == c.df[last]
  {
    var l := LookupKey(c, days);
    assert l <= last && last <= l;
  }

  /** On a curve of positive factors every lookup is positive. */
  lemma DiscountFactorPositive(c: YieldCurve, days: int)
    requires c.df != map[] && forall k :: k in c.df ==> 0.0 < c.df[k]
    ensures 0.0 < DiscountFactor(c, days)
  {
  }

  /** `days / 365.0`: a day count in years. */
  function Years(days: int): (t: real)
    ensures t == 0.0 <==> days == 0
  {
    days as real / 365.0
  }

  /** `zeroRate(days) = -log(df) / (days / 365)`. At day 0 the source divides by
      zero; that case is `None` here. */
  function ZeroRate(c: YieldCurve, days: int, log: real -> real): (r: Option<real>)
    requires c.df != map[]
    ensures r.None? <==> days == 0
    ensures r.Some? ==> r.value * Years(days) == -log(DiscountFactor(c, days))
  {
    var t := Years(days);
    if days == 0 then None else Some(-log(DiscountFactor(c, days)) / t)
  }

  /** The zero rate recovers the discount factor: `exp(-r * t)` is the factor the
      rate was taken from, for a positive factor and a logarithm inverse to `exp`. */
  lemma ZeroRateRoundTrip(c: YieldCurve, days: int, exp: real -> real, log: real -> real)
    requires c.df != map[] && days != 0
    requires IsLogFor(exp, log) && 0.0 < DiscountFactor(c, days)
    ensures ZeroRate(c, days, log).Some?
    ensures exp(-(ZeroRate(c, days, log).value * Years(days))) == DiscountFactor(c, days)
  {
    ExpOfLog(exp, log, DiscountFactor(c, days), ZeroRate(c, days, log).value * Years(days));
  }

  lemma ExpOfLog(exp: real -> real, log: real -> real, d: real, y: real)
    requires IsLogFor(exp, log) && 0.0 < d && y == -log(d)
    ensures exp(-y) == d
  {
    assert -y == log(d);
  }

  /** The factor `exp(-shift_bp * 1e-4)` that `bumped` applies to every value. */
  function BumpFactor(shiftBp: real, exp: real -> real): real
  {
    exp(-shiftBp * BasisPoint)
  }

  /** `bumped(shift_bp)` as a value: the same keys, every factor scaled. */
  function Bump(c: YieldCurve, shiftBp: real, exp: real -> real): (b: YieldCurve)
    ensures b.df.Keys == c.df.Keys
    ensures forall k :: k in c.df ==> b.df[k] == c.df[k] * BumpFactor(shiftBp, exp)
  {
    var f := BumpFactor(shiftBp, exp);
    YieldCurve(map k | k in c.df :: c.df[k] * f)
  }

  /** `bumped(shift_bp)`: walks the curve in key order and writes each scaled
      factor into a new map. */
  method Bumped(c: YieldCurve, shiftBp: real, exp: real -> real) returns (b: YieldCurve)
    ensures b.df.Keys == c.df.Keys
    ensures forall k :: k in c.df ==> b.df[k] == c.df[k] * BumpFactor(shiftBp, exp)
    ensures b == Bump(c, shiftBp, exp)
  {
    var out: map<int, real> := map[];
    var f := BumpFactor(shiftBp, exp);
    var rest := c.df.Keys;
    while rest != {}
      invariant rest <= c.df.Keys
      invariant forall k :: k in out <==> k in c.df && k !in rest
      invariant forall k :: k in out ==> out[k] == c.df[k] * f
      decreases rest
    {
      var d := Least(rest);
      out := out[d := c.df[d] * f];
      rest := rest - {d};
    }
    assert out.Keys == c.df.Keys by {
      assert forall k :: k in out <==> k in c.df;
    }
    b := YieldCurve(out);
    var spec := Bump(c, shiftBp, exp);
    assert forall k :: k in b.df ==> b.df[k] == spec.df[k];
    assert b.df == spec.df;
  }

  /** A zero shift leaves every factor unchanged. */
  lemma BumpZero(c: YieldCurve, exp: real -> real)
    requires IsExp(exp)
    ensures Bump(c, 0.0, exp) == c
  {
    assert -0.0 * BasisPoint == 0.0;
    assert BumpFactor(0.0, exp) == 1.0;
    assert Bump(c, 0.0, exp).df == c.df;
  }

  /** A positive shift strictly lowers every positive factor, and a negative one
      strictly raises it. */
  lemma BumpMoves(c: YieldCurve, shiftBp: real, exp: real -> real, k: int)
    requires IsExp(exp) && k in c.df && 0.0 < c.df[k]
    ensures 0.0 < shiftBp ==> 0.0 < Bump(c, shiftBp, exp).df[k] < c.df[k]
    ensures shiftBp < 0.0 ==> c.df[k] < Bump(c, shiftBp, exp).df[k]
  {
    var f := BumpFactor(shiftBp, exp);
    var x, y := c.df[k], Bump(c, shiftBp, exp).df[k];
    assert y == x * f;
    if 0.0 < shiftBp {
      ExpBelowOne(exp, -shiftBp * BasisPoint);
      ScaleBelow(x, f);
    } else if shiftBp < 0.0 {
      ExpAboveOne(exp, -shiftBp * BasisPoint);
      ScaleAbove(x, f);
    }
  }

  lemma ScaleBelow(x: real, f: real)
    requires 0.0 < x && 0.0 < f < 1.0
    ensures 0.0 < x * f < x
  {
  }

  lemma ScaleAbove(x: real, f: real)
    requires 0.0 < x && 1.0 < f
    ensures x < x * f
  {
  }

  /** `y` is `x` scaled by `f`. */
  predicate Scales(y: real, x: real, f: real)
  {
    y == x * f
  }

  /** Bumping commutes with the lookup: the bumped curve's factor at any day is the
      base factor times the bump factor, since both curves have the same keys. */
  lemma DiscountFactorBumped(c: YieldCurve, days: int, shiftBp: real, exp: real -> real)
    requires c.df != map[]
    ensures Scales(DiscountFactor(Bump(c, shiftBp, exp), days), DiscountFactor(c, days), BumpFactor(shiftBp, exp))
  {
    var b := Bump(c, shiftBp, exp);
    assert KeysFrom(b, days) == KeysFrom(c, days);
    assert LookupKey(b, days) == LookupKey(c, days);
  }
}
