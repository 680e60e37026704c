/** Shared numeric helpers over price series: the left-to-right sum that
    `reduce((a, b) => a + b)` performs, the arithmetic mean of a window and
    the sum of squared deviations used for the population variance. */
module Series {

  /** Left fold of `+` over `s`, starting from 0. */
  function Sum(s: seq<real>): real
  {
    if |s| == 0 then 0.0 else Sum(s[..|s| - 1]) + s[|s| - 1]
  }

  /** Arithmetic mean of a non-empty window. */
  function Mean(s: seq<real>): real
    requires |s| > 0
  {
    Sum(s) / |s| as real
  }

  /** Sum of `(v - m)^2` over the window. */
  function SumSquaredDeviations(s: seq<real>, m: real): real
  {
    if |s| == 0 then 0.0
    else SumSquaredDeviations(s[..|s| - 1], m) + (s[|s| - 1] - m) * (s[|s| - 1] - m)
  }

  /** Population variance of a window around `m`: divide by the window size. */
  function Variance(s: seq<real>, m: real): (v: real)
    requires |s| > 0
    ensures v >= 0.0
  {
    SumSquaredDeviationsNonNegative(s, m);
    SumSquaredDeviations(s, m) / |s| as real
  }

  /** Every element of `s` lies in `[lo, hi]`. */
  ghost predicate Within(s: seq<real>, lo: real, hi: real)
  {
    forall i :: 0 <= i < |s| ==> lo <= s[i] <= hi
  }

  /** Every element of `s` equals `c`. */
  ghost predicate Constant(s: seq<real>, c: real)
  {
    forall i :: 0 <= i < |s| ==> s[i] == c
  }

  lemma {:induction false} SumAppend(a: seq<real>, b: seq<real>)
    ensures Sum(a + b) == Sum(a) + Sum(b)
    decreases |b|
  {
    if |b| == 0 {
      assert a + b == a;
    } else {
      assert (a + b)[..|a + b| - 1] == a + b[..|b| - 1];
      SumAppend(a, b[..|b| - 1]);
    }
  }

  /** A sum of `n` values in `[lo, hi]` lies in `[n*lo, n*hi]`. */
  lemma {:induction false} SumWithin(s: seq<real>, lo: real, hi: real)
    requires Within(s, lo, hi)
    ensures |s| as real * lo <= Sum(s) <= |s| as real * hi
  {
    if |s| > 0 {
      var init := s[..|s| - 1];
      var last := s[|s| - 1];
      assert forall i :: 0 <= i < |init| ==> init[i] == s[i];
      SumWithin(init, lo, hi);
      StepWithin(|init| as real, Sum(init), last, lo, hi);
    }
  }

  /** One more value in `[lo, hi]` moves the bounds of a sum by one step. */
  lemma StepWithin(n: real, sum: real, x: real, lo: real, hi: real)
    requires n * lo <= sum <= n * hi && lo <= x <= hi
    ensures (n + 1.0) * lo <= sum + x <= (n + 1.0) * hi
  {
  }

  /** A sum of non-negative values is non-negative, and positive as soon as
      every value is positive and there is at least one. */
  lemma {:induction false} SumSign(s: seq<real>)
    ensures (forall i :: 0 <= i < |s| ==> s[i] >= 0.0) ==> Sum(s) >= 0.0
    ensures |s| > 0 && (forall i :: 0 <= i < |s| ==> s[i] > 0.0) ==> Sum(s) > 0.0
    ensures (forall i :: 0 <= i < |s| ==> s[i] == 0.0) ==> Sum(s) == 0.0
  {
    if |s| > 0 {
      var init := s[..|s| - 1];
      assert forall i :: 0 <= i < |init| ==> init[i] == s[i];
      SumSign(init);
    }
  }

  /** Dividing by a positive amount keeps the sign. */
  lemma QuotientSign(a: real, b: real)
    requires b > 0.0
    ensures a >= 0.0 ==> a / b >= 0.0
    ensures a > 0.0 ==> a / b > 0.0
    ensures a == 0.0 ==> a / b == 0.0
  {
  }

  /** `lo <= v / w <= hi` when `w * lo <= v <= w * hi` and `w > 0`. */
  lemma QuotientWithin(v: real, w: real, lo: real, hi: real)
    requires w > 0.0 && w * lo <= v <= w * hi
    ensures lo <= v / w <= hi
  {
    var q := v / w;
    assert q * w == v;
    assert w * (q - lo) >= 0.0;
    assert w * (hi - q) >= 0.0;
  }

  /** The mean of a window lies between any bounds of its elements. */
  lemma MeanWithin(s: seq<real>, lo: real, hi: real)
    requires |s| > 0 && Within(s, lo, hi)
    ensures lo <= Mean(s) <= hi
  {
    SumWithin(s, lo, hi);
    var n := |s| as real;
    assert lo == (n * lo) / n;
    assert hi == (n * hi) / n;
  }

  /** The mean of a constant window is that constant. */
  lemma MeanOfConstant(s: seq<real>, c: real)
    requires |s| > 0 && Constant(s, c)
    ensures Mean(s) == c
  {
    MeanWithin(s, c, c);
  }

  lemma {:induction false} SumSquaredDeviationsNonNegative(s: seq<real>, m: real)
    ensures SumSquaredDeviations(s, m) >= 0.0
  {
    if |s| > 0 {
      SumSquaredDeviationsNonNegative(s[..|s| - 1], m);
      var d := s[|s| - 1] - m;
      assert d * d >= 0.0;
    }
  }

  /** A window that is constant at its mean has no spread. */
  lemma {:induction false} SumSquaredDeviationsOfConstant(s: seq<real>, c: real)
    requires Constant(s, c)
    ensures SumSquaredDeviations(s, c) == 0.0
  {
    if |s| > 0 {
      SumSquaredDeviationsOfConstant(s[..|s| - 1], c);
    }
  }
}
