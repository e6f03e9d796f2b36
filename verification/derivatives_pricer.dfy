/** The market-file loader and the discount-curve lookup of
    derivatives_pricer/derivatives_pricer.cpp.

    A file is the sequence of its lines. Reading numbers from a line with an
    `istringstream` is the parameter `scan`: given the line (commas already
    replaced by spaces) it returns the numbers that `>>` extracts from its start
    before the first failure, so `ss >> a >> b` succeeds exactly when `scan`
    returns at least two. `exp` and `log` are parameters obeying the laws of
    `Transcendental`. The loader fills containers that start empty, as `main`
    passes them; a file that cannot be opened is not part of this model. */
module DerivativesPricer {
  import opened Outcomes
  import opened Transcendental

  /** `DiscCurve`: maturities and discount factors. */
  datatype DiscCurve = DiscCurve(t: seq<real>, df: seq<real>)

  /** `Caplet`: expiry, forward, strike, volatility and accrual fraction. */
  datatype Caplet = Caplet(expiry: real, forward: real, strike: real, sigma: real, tau: real)

  /** The two `runtime_error`s the loader throws after reading every line. */
  datatype LoadError = CurveTooShort | CapletsMissing

  /** What the loader hands back through its two reference parameters. */
  datatype Market = Market(curve: DiscCurve, caps: seq<Caplet>)

  // ---------------------------------------------------------------- loader

  /** The loop's state: the section flag and the three containers. */
  datatype LoadState = LoadState(readingCurve: bool, t: seq<real>, df: seq<real>, caps: seq<Caplet>)

  const Start: LoadState := LoadState(true, [], [], [])

  /** `std::replace(line.begin(), line.end(), ',', ' ')`. */
  function ReplaceCommas(line: string): (r: string)
    ensures |r| == |line|
  {
    seq(|line|, i requires 0 <= i < |line| => if line[i] == ',' then ' ' else line[i])
  }

  /** A line the loop skips: blank, or a comment. */
  predicate Ignored(line: string)
  {
    line == [] || line[0] == '#'
  }

  /** The second header: any line starting with `T`. */
  predicate CapletHeader(line: string)
  {
    !Ignored(line) && line[0] == 'T'
  }

  /** The discount factor of a curve row: maturity `m`, continuously
      compounded zero rate `z`. */
  function CurveFactor(m: real, z: real, exp: real -> real): real
  {
    exp(-z * m)
  }

  /** One iteration of the `while (getline(...))` loop. */
  function Step(st: LoadState, line: string, scan: string -> seq<real>, exp: real -> real): LoadState
  {
    if Ignored(line) then st
    else if line[0] == 'T' then st.(readingCurve := false)
    else
      var ns := scan(ReplaceCommas(line));
      if st.readingCurve then
        if 2 <= |ns| then st.(t := st.t + [ns[0]], df := st.df + [CurveFactor(ns[0], ns[1], exp)]) else st
      else
        if 5 <= |ns| then st.(caps := st.caps + [Caplet(ns[0], ns[1], ns[2], ns[3], ns[4])]) else st
  }

  /** The state after the loop has read `lines` from `st`. */
  function Load(st: LoadState, lines: seq<string>, scan: string -> seq<real>, exp: real -> real): LoadState
  {
    if lines == [] then st
    else Step(Load(st, lines[..|lines| - 1], scan, exp), lines[|lines| - 1], scan, exp)
  }

  /** `load_market_file` on a whole file: the curve check comes first. */
  function MarketFile(lines: seq<string>, scan: string -> seq<real>, exp: real -> real): (r: Result<Market, LoadError>)
    ensures var st := Load(Start, lines, scan, exp);
            && (r == Err(CurveTooShort) <==> |st.t| < 2)
            && (r == Err(CapletsMissing) <==> 2 <= |st.t| && st.caps == [])
            && (r.Ok? ==> r.value == Market(DiscCurve(st.t, st.df), st.caps))
  {
    var st := Load(Start, lines, scan, exp);
    if |st.t| < 2 then Err(CurveTooShort)
    else if st.caps == [] then Err(CapletsMissing)
    else Ok(Market(DiscCurve(st.t, st.df), st.caps))
  }

  /** `load_market_file(file, curve, caps)`. */
  method LoadMarketFile(lines: seq<string>, scan: string -> seq<real>, exp: real -> real)
    returns (r: Result<Market, LoadError>)
    ensures r == MarketFile(lines, scan, exp)
  {
    var t: seq<real>, df: seq<real>, caps: seq<Caplet> := [], [], [];
    var readingCurve := true;
    var i := 0;
    while i < |lines|
      invariant 0 <= i <= |lines|
      invariant Load(Start, lines[..i], scan, exp) == LoadState(readingCurve, t, df, caps)
    {
      var line := lines[i];
      assert lines[..i + 1][..i] == lines[..i];
      ghost var next := Step(LoadState(readingCurve, t, df, caps), line, scan, exp);
      if line == [] {
      } else if line[0] == '#' {
      } else if line[0] == 'T' {
        readingCurve := false;
      } else {
        var ns := scan(ReplaceCommas(line));
        if readingCurve {
          if 2 <= |ns| {
            t := t + [ns[0]];
            df := df + [CurveFactor(ns[0], ns[1], exp)];
          }
        } else if 5 <= |ns| {
          caps := caps + [Caplet(ns[0], ns[1], ns[2], ns[3], ns[4])];
        }
      }
      assert LoadState(readingCurve, t, df, caps) == next;
      i := i + 1;
    }
    assert lines[..i] == lines;
    if |t| < 2 {
      return Err(CurveTooShort);
    }
    if caps == [] {
      return Err(CapletsMissing);
    }
    return Ok(Market(DiscCurve(t, df), caps));
  }

  /** Reading two pieces of a file one after the other is reading the whole. */
  lemma {:induction false} LoadConcat(st: LoadState, a: seq<string>, b: seq<string>,
                                      scan: string -> seq<real>, exp: real -> real)
    ensures Load(st, a + b, scan, exp) == Load(Load(st, a, scan, exp), b, scan, exp)
    decreases |b|
  {
    if b == [] {
      assert a + b == a;
    } else {
      assert (a + b)[..|a + b| - 1] == a + b[..|b| - 1];
      LoadConcat(st, a, b[..|b| - 1], scan, exp);
    }
  }

  /** A curve row appends its maturity and the factor `exp(-z * m)` together, so
      the two curve vectors always have one length; with a lawful `exp` every
      factor is positive. */
  lemma {:induction false} CurveVectorsAligned(lines: seq<string>, scan: string -> seq<real>, exp: real -> real)
    ensures var st := Load(Start, lines, scan, exp);
            |st.t| == |st.df| && (IsExp(exp) ==> forall k :: 0 <= k < |st.df| ==> 0.0 < st.df[k])
  {
    if lines != [] {
      CurveVectorsAligned(lines[..|lines| - 1], scan, exp);
    }
  }

  /** Blank and comment lines can be removed from anywhere in a file without
      changing what it loads. */
  lemma IgnoredLinesDropOut(st: LoadState, a: seq<string>, line: string, b: seq<string>,
                            scan: string -> seq<real>, exp: real -> real)
    requires Ignored(line)
    ensures Load(st, a + [line] + b, scan, exp) == Load(st, a + b, scan, exp)
  {
    LoadConcat(st, a + [line], b, scan, exp);
    LoadConcat(st, a, b, scan, exp);
    assert (a + [line])[..|a + [line]| - 1] == a;
  }

  /** Once a `T` line has been read the curve section is over for good: the flag
      stays down and later lines never touch the curve. */
  lemma {:induction false} CurveFrozenAfterHeader(st: LoadState, lines: seq<string>,
                                                  scan: string -> seq<real>, exp: real -> real)
    requires !st.readingCurve
    ensures var r := Load(st, lines, scan, exp);
            !r.readingCurve && r.t == st.t && r.df == st.df
  {
    if lines != [] {
      CurveFrozenAfterHeader(st, lines[..|lines| - 1], scan, exp);
    }
  }

  /** A `T` line ends the curve section, whatever follows it. */
  lemma HeaderEndsCurve(a: seq<string>, line: string, b: seq<string>,
                        scan: string -> seq<real>, exp: real -> real)
    requires CapletHeader(line)
    ensures var before := Load(Start, a, scan, exp);
            var r := Load(Start, a + [line] + b, scan, exp);
            r.t == before.t && r.df == before.df
  {
    LoadConcat(Start, a + [line], b, scan, exp);
    assert (a + [line])[..|a + [line]| - 1] == a;
    CurveFrozenAfterHeader(Load(Start, a + [line], scan, exp), b, scan, exp);
  }

  /** Without a `T` line there are no caplets, so such a file never loads. */
  lemma {:induction false} NoHeaderNoCaplets(lines: seq<string>, scan: string -> seq<real>, exp: real -> real)
    requires forall k :: 0 <= k < |lines| ==> !CapletHeader(lines[k])
    ensures var st := Load(Start, lines, scan, exp);
            st.readingCurve && st.caps == []
    ensures MarketFile(lines, scan, exp).Err?
  {
    if lines != [] {
      NoHeaderNoCaplets(lines[..|lines| - 1], scan, exp);
    }
  }

  // ---------------------------------------------------------------- lookup

  predicate Sorted(t: seq<real>)
  {
    forall i, j :: 0 <= i <= j < |t| ==> t[i] <= t[j]
  }

  predicate StrictlyIncreasing(t: seq<real>)
  {
    forall i, j :: 0 <= i < j < |t| ==> t[i] < t[j]
  }

  /** `std::upper_bound(t.begin(), t.end(), T) - t.begin()` on a sorted vector:
      the number of maturities not later than `T`. */
  function UpperBound(t: seq<real>, x: real): (k: nat)
    ensures k <= |t|
  {
    if t == [] then 0
    else UpperBound(t[..|t| - 1], x) + (if t[|t| - 1] <= x then 1 else 0)
  }

  /** On a sorted vector every maturity before the bound is at most `x` and every
      one from it on is later. */
  lemma {:induction false} UpperBoundSplits(t: seq<real>, x: real)
    requires Sorted(t)
    ensures var k := UpperBound(t, x);
            && (forall j :: 0 <= j < k ==> t[j] <= x)
            && (forall j :: k <= j < |t| ==> x < t[j])
  {
    if t != [] {
      var p := t[..|t| - 1];
      assert Sorted(p);
      UpperBoundSplits(p, x);
    }
  }

  /** A curve the lookup can read: a sorted, non-empty maturity vector with a
      factor per maturity. */
  predicate Readable(c: DiscCurve)
  {
    |c.t| == |c.df| && 0 < |c.t| && Sorted(c.t)
  }

  /** The bracket of an interior `x`: `t[i] <= x < t[i + 1]`. */
  function Bracket(c: DiscCurve, x: real): (i: nat)
    requires Readable(c) && c.t[0] < x < c.t[|c.t| - 1]
    ensures i + 1 < |c.t| && c.t[i] <= x < c.t[i + 1]
  {
    UpperBoundSplits(c.t, x);
    UpperBound(c.t, x) - 1
  }

  /** `DiscCurve::operator()(T)`: flat beyond both ends, log-linear between
      the bracketing maturities. */
  function Lookup(c: DiscCurve, x: real, exp: real -> real, log: real -> real): real
    requires Readable(c)
  {
    if x <= c.t[0] then c.df[0]
    else if c.t[|c.t| - 1] <= x then c.df[|c.df| - 1]
    else
      var i := Bracket(c, x);
      LogLinear(c.df[i], c.df[i + 1], (x - c.t[i]) / (c.t[i + 1] - c.t[i]), exp, log)
  }

  /** The factor a fraction `w` of the way from `d0` to `d1` in log space. */
  function LogLinear(d0: real, d1: real, w: real, exp: real -> real, log: real -> real): real
  {
    exp(log(d0) + w * (log(d1) - log(d0)))
  }

  /** Every factor is positive. */
  predicate PositiveFactors(c: DiscCurve)
  {
    forall k :: 0 <= k < |c.df| ==> 0.0 < c.df[k]
  }

  /** Beyond the curve the lookup is flat at the end factors. */
  lemma LookupClamps(c: DiscCurve, x: real, exp: real -> real, log: real -> real)
    requires Readable(c)
    ensures x <= c.t[0] ==> Lookup(c, x, exp, log) == c.df[0]
    ensures c.t[0] < x && c.t[|c.t| - 1] <= x ==> Lookup(c, x, exp, log) == c.df[|c.df| - 1]
  {
  }

  lemma FractionInUnit(a: real, b: real, w: real)
    requires 0.0 <= a < b && w == a / b
    ensures 0.0 <= w < 1.0
  {
    assert w * b == a;
  }

  lemma ScaledBetween(w: real, d: real, y: real)
    requires 0.0 <= w <= 1.0 && y == w * d
    ensures 0.0 <= d ==> 0.0 <= y <= d
    ensures d <= 0.0 ==> d <= y <= 0.0
  {
    assert d - y == (1.0 - w) * d;
  }

  lemma ExpMonotone(exp: real -> real, x: real, y: real)
    requires IsExp(exp) && x <= y
    ensures exp(x) <= exp(y)
  {
    if x < y {
      assert exp(x) < exp(y);
    }
  }

  /** With lawful `exp` and `log` and positive factors, an interior lookup lies
      between the factors at the two bracketing maturities. */
  lemma LookupBetween(c: DiscCurve, x: real, exp: real -> real, log: real -> real)
    requires Readable(c) && PositiveFactors(c) && IsExp(exp) && IsLogFor(exp, log)
    requires c.t[0] < x < c.t[|c.t| - 1]
    ensures var i := Bracket(c, x);
            var v := Lookup(c, x, exp, log);
            (c.df[i] <= v <= c.df[i + 1]) || (c.df[i + 1] <= v <= c.df[i])
  {
    var i := Bracket(c, x);
    var w := (x - c.t[i]) / (c.t[i + 1] - c.t[i]);
    FractionInUnit(x - c.t[i], c.t[i + 1] - c.t[i], w);
    var a, b := log(c.df[i]), log(c.df[i + 1]);
    var y := w * (b - a);
    ScaledBetween(w, b - a, y);
    assert exp(a) == c.df[i] && exp(b) == c.df[i + 1];
    if a <= b {
      ExpMonotone(exp, a, a + y);
      ExpMonotone(exp, a + y, b);
    } else {
      ExpMonotone(exp, a + y, a);
      ExpMonotone(exp, b, a + y);
    }
  }

  /** On strictly increasing maturities with positive factors, the lookup at a
      maturity returns that maturity's own factor. */
  lemma LookupAtKnots(c: DiscCurve, k: nat, exp: real -> real, log: real -> real)
    requires Readable(c) && StrictlyIncreasing(c.t) && PositiveFactors(c) && IsLogFor(exp, log)
    requires k < |c.t|
    ensures Lookup(c, c.t[k], exp, log) == c.df[k]
  {
    var x := c.t[k];
    if c.t[0] < x < c.t[|c.t| - 1] {
      var i := Bracket(c, x);
      assert i == k;
      var w := (x - c.t[i]) / (c.t[i + 1] - c.t[i]);
      assert w == 0.0;
      var l := log(c.df[i]);
      assert l + w * (log(c.df[i + 1]) - l) == l;
      assert LogLinear(c.df[i], c.df[i + 1], w, exp, log) == exp(l);
    }
  }
}
