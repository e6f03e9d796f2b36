/** Small numeric vocabulary shared by the fixed-income and statistics models:
    finite sums over sequences of reals and C-style truncation toward zero. */
module Numerics {

  /** Sum of a sequence of reals, left to right. */
  function Sum(s: seq<real>): real
  {
    if s == [] then 0.0 else Sum(s[..|s| - 1]) + s[|s| - 1]
  }

  /** Sum of the elementwise products of two sequences of the same length
      (numpy's `np.sum(a * b)`). */
  function SumProducts(a: seq<real>, b: seq<real>): real
    requires |a| == |b|
  {
    if a == [] then 0.0 else SumProducts(a[..|a| - 1], b[..|b| - 1]) + a[|a| - 1] * b[|b| - 1]
  }

  /** Sum of every element scaled by `c` (numpy's `np.sum(d * c)` for a scalar `c`). */
  function SumScaled(s: seq<real>, c: real): real
  {
    if s == [] then 0.0 else SumScaled(s[..|s| - 1], c) + s[|s| - 1] * c
  }

  lemma {:induction false} SumAppend(s: seq<real>, x: real)
    ensures Sum(s + [x]) == Sum(s) + x
  {
    assert (s + [x])[..|s + [x]| - 1] == s;
  }

  lemma {:induction false} SumConcat(a: seq<real>, b: seq<real>)
    ensures Sum(a + b) == Sum(a) + Sum(b)
    decreases |b|
  {
    if b == [] {
      assert a + b == a;
    } else {
      var b' := b[..|b| - 1];
      assert a + b == (a + b') + [b[|b| - 1]];
      SumAppend(a + b', b[|b| - 1]);
      SumConcat(a, b');
      assert b == b' + [b[|b| - 1]];
      SumAppend(b', b[|b| - 1]);
    }
  }

  /** Scaling inside the sum is scaling the sum: `np.sum(d * c) == c * np.sum(d)`. */
  lemma {:induction false} SumScaledIsScaledSum(s: seq<real>, c: real)
    ensures SumScaled(s, c) == c * Sum(s)
  {
    if s != [] {
      SumScaledIsScaledSum(s[..|s| - 1], c);
    }
  }

  /** A sum of non-negative terms is non-negative, and positive when one term is. */
  lemma {:induction false} SumNonNegative(s: seq<real>)
    requires forall k :: 0 <= k < |s| ==> 0.0 <= s[k]
    ensures 0.0 <= Sum(s)
    ensures (exists k :: 0 <= k < |s| && 0.0 < s[k]) ==> 0.0 < Sum(s)
  {
    if s != [] {
      var s' := s[..|s| - 1];
      SumNonNegative(s');
      if exists k :: 0 <= k < |s| && 0.0 < s[k] {
        var k :| 0 <= k < |s| && 0.0 < s[k];
        if k < |s| - 1 {
          assert s'[k] == s[k];
        }
      }
    }
  }

  /** A sum of non-negative terms vanishes exactly when every term does. */
  lemma {:induction false} SumZero(s: seq<real>)
    requires forall k :: 0 <= k < |s| ==> 0.0 <= s[k]
    ensures Sum(s) == 0.0 <==> forall k :: 0 <= k < |s| ==> s[k] == 0.0
  {
    SumNonNegative(s);
    if s != [] {
      var s' := s[..|s| - 1];
      SumZero(s');
      assert forall k :: 0 <= k < |s'| ==> s'[k] == s[k];
    }
  }

  /** C++ `int(x)` and Python `int(x)` on a finite value: truncation toward zero. */
  function Trunc(x: real): (r: int)
    ensures 0.0 <= x ==> r as real <= x < r as real + 1.0
    ensures x < 0.0 ==> r as real - 1.0 < x <= r as real
    ensures (r as real).Floor == r
  {
    if 0.0 <= x then x.Floor else -((-x).Floor)
  }

  /** Truncation is monotone. */
  lemma TruncMonotone(x: real, y: real)
    requires x <= y
    ensures Trunc(x) <= Trunc(y)
  {
  }

  /** Truncation leaves an integral value unchanged. */
  lemma TruncOfInt(n: int)
    ensures Trunc(n as real) == n
  {
  }
}
