/** Simple and exponential moving averages over a flat price series
    (`TechnicalIndicators.calculateSMA` and `calculateEMA`). */
module MovingAverages {
  import opened Series

  /** Number of values a single-pass window indicator yields from `n` prices:
      one per complete window, none when there is no complete window. */
  function WindowCount(n: nat, period: nat): nat
  {
    if n >= period then n - period + 1 else 0
  }

  /** The SMA value whose window starts at price index `k`. */
  function SmaAt(prices: seq<real>, period: nat, k: nat): real
    requires 1 <= period && k + period <= |prices|
  {
    Mean(prices[k..k + period])
  }

  /** The SMA series as a whole; `Bollinger` uses it as its middle band. */
  function Sma(prices: seq<real>, period: nat): seq<real>
    requires 1 <= period
  {
    seq(WindowCount(|prices|, period), k requires 0 <= k < WindowCount(|prices|, period) => SmaAt(prices, period, k))
  }

  /** Builds the SMA series window by window; window `k` is
      `prices[k .. k + period - 1]`, so the series is empty when `prices` is
      shorter than one window. */
  method CalculateSMA(prices: seq<real>, period: nat) returns (sma: seq<real>)
    requires 1 <= period
    ensures |sma| == WindowCount(|prices|, period)
    ensures forall k :: 0 <= k < |sma| ==> sma[k] == Mean(prices[k..k + period])
    ensures sma == Sma(prices, period)
  {
    sma := [];
    var i := period - 1;
    while i < |prices|
      invariant period - 1 <= i
      invariant i <= |prices| || i == period - 1
      invariant |sma| == i - (period - 1)
      invariant forall k :: 0 <= k < |sma| ==> sma[k] == Mean(prices[k..k + period])
    {
      var sum := Sum(prices[i - period + 1..i + 1]);
      sma := sma + [sum / period as real];
      i := i + 1;
    }
  }

  /** Every SMA value lies within the bounds of the prices. */
  lemma SmaWithin(prices: seq<real>, period: nat, k: nat, lo: real, hi: real)
    requires 1 <= period && k + period <= |prices|
    requires Within(prices, lo, hi)
    ensures lo <= SmaAt(prices, period, k) <= hi
  {
    var w := prices[k..k + period];
    forall i | 0 <= i < |w| ensures lo <= w[i] <= hi {
      assert w[i] == prices[k + i];
    }
    MeanWithin(w, lo, hi);
  }

  /** The EMA weight `k = 2 / (period + 1)`. */
  function Multiplier(period: nat): (k: real)
    requires 1 <= period
    ensures 0.0 < k <= 1.0
  {
    2.0 / (period as real + 1.0)
  }

  /** The EMA value whose latest input is `prices[period - 1 + j]`: seeded with
      the mean of the first window, then `price * k + previous * (1 - k)`. */
  function EmaAt(prices: seq<real>, period: nat, j: nat): real
    requires 1 <= period && period + j <= |prices|
    decreases j
  {
    if j == 0 then Mean(prices[..period])
    else prices[period - 1 + j] * Multiplier(period) + EmaAt(prices, period, j - 1) * (1.0 - Multiplier(period))
  }

  /** Runs the EMA recurrence left to right over `prices`; the first value is
      the SMA of the first window and each later value folds in one more
      price. */
  method CalculateEMA(prices: seq<real>, period: nat) returns (ema: seq<real>)
    requires 1 <= period <= |prices|
    ensures |ema| == |prices| - period + 1
    ensures ema[0] == SmaAt(prices, period, 0)
    ensures forall j :: 1 <= j < |ema| ==>
      ema[j] == prices[period - 1 + j] * Multiplier(period) + ema[j - 1] * (1.0 - Multiplier(period))
    ensures forall j :: 0 <= j < |ema| ==> ema[j] == EmaAt(prices, period, j)
  {
    ema := [Sum(prices[..period]) / period as real];
    assert prices[..period] == prices[0..period];
    var i := period;
    while i < |prices|
      invariant period <= i <= |prices|
      invariant |ema| == i - period + 1
      invariant forall j :: 0 <= j < |ema| ==> ema[j] == EmaAt(prices, period, j)
    {
      var next := NextEma(prices, period, i, ema[|ema| - 1]);
      ema := ema + [next];
      i := i + 1;
    }
    EmaRecurrence(prices, period, ema);
  }

  /** The loop body: `prices[i] * k + previous * (1 - k)`. */
  method NextEma(prices: seq<real>, period: nat, i: nat, previous: real) returns (next: real)
    requires 1 <= period <= i < |prices|
    requires previous == EmaAt(prices, period, i - period)
    ensures next == EmaAt(prices, period, i - period + 1)
  {
    var multiplier := 2.0 / (period as real + 1.0);
    next := prices[i] * multiplier + previous * (1.0 - multiplier);
  }

  /** A sequence that agrees with `EmaAt` follows the recurrence. */
  lemma EmaRecurrence(prices: seq<real>, period: nat, ema: seq<real>)
    requires 1 <= period <= |prices| && |ema| == |prices| - period + 1
    requires forall j :: 0 <= j < |ema| ==> ema[j] == EmaAt(prices, period, j)
    ensures forall j :: 1 <= j < |ema| ==>
      ema[j] == prices[period - 1 + j] * Multiplier(period) + ema[j - 1] * (1.0 - Multiplier(period))
  {
    forall j | 1 <= j < |ema|
      ensures ema[j] == prices[period - 1 + j] * Multiplier(period) + ema[j - 1] * (1.0 - Multiplier(period))
    {
      assert ema[j] == EmaAt(prices, period, j) && ema[j - 1] == EmaAt(prices, period, j - 1);
    }
  }

  /** `p * k + e * (1 - k)` with `0 <= k <= 1` lies between any common bounds
      of `p` and `e`. */
  lemma ConvexWithin(p: real, e: real, k: real, lo: real, hi: real)
    requires lo <= p <= hi && lo <= e <= hi && 0.0 <= k <= 1.0
    ensures lo <= p * k + e * (1.0 - k) <= hi
  {
    assert (p - lo) * k >= 0.0;
    assert (e - lo) * (1.0 - k) >= 0.0;
    assert (hi - p) * k >= 0.0;
    assert (hi - e) * (1.0 - k) >= 0.0;
  }

  /** Every EMA value is a convex combination of prices seen so far, so it
      lies within any bounds of the prices. */
  lemma {:induction false} EmaWithin(prices: seq<real>, period: nat, j: nat, lo: real, hi: real)
    requires 1 <= period && period + j <= |prices|
    requires Within(prices, lo, hi)
    ensures lo <= EmaAt(prices, period, j) <= hi
    decreases j
  {
    if j == 0 {
      SmaWithin(prices, period, 0, lo, hi);
      assert prices[..period] == prices[0..period];
    } else {
      EmaWithin(prices, period, j - 1, lo, hi);
      ConvexWithin(prices[period - 1 + j], EmaAt(prices, period, j - 1), Multiplier(period), lo, hi);
    }
  }

  /** On a constant price series every EMA value equals that constant. */
  lemma EmaOfConstant(prices: seq<real>, period: nat, j: nat, c: real)
    requires 1 <= period && period + j <= |prices|
    requires Constant(prices, c)
    ensures EmaAt(prices, period, j) == c
  {
    EmaWithin(prices, period, j, c, c);
  }

  /** The EMA seed is the first SMA value. */
  lemma EmaSeedIsSma(prices: seq<real>, period: nat)
    requires 1 <= period <= |prices|
    ensures EmaAt(prices, period, 0) == SmaAt(prices, period, 0)
  {
    assert prices[..period] == prices[0..period];
  }
}
