/** Bollinger Bands (`TechnicalIndicators.calculateBollingerBands`): the SMA
    as middle band and `stdDev` population standard deviations either side.
    The square root is a parameter; see `RootLike`. */
module Bollinger {
  import opened Series
  import opened MovingAverages

  datatype Bands = Bands(upper: seq<real>, middle: seq<real>, lower: seq<real>)

  /** What the model relies on from the host's square root: it maps
      non-negative numbers to non-negative numbers and 0 to 0. */
  ghost predicate RootLike(sqrt: real -> real)
  {
    sqrt(0.0) == 0.0 && forall x: real :: x >= 0.0 ==> sqrt(x) >= 0.0
  }

  /** Population standard deviation of window `k` around its SMA value. */
  function Deviation(prices: seq<real>, period: nat, k: nat, sqrt: real -> real): real
    requires 1 <= period && k + period <= |prices|
  {
    sqrt(Variance(prices[k..k + period], SmaAt(prices, period, k)))
  }

  function UpperAt(prices: seq<real>, period: nat, stdDev: real, k: nat, sqrt: real -> real): real
    requires 1 <= period && k + period <= |prices|
  {
    SmaAt(prices, period, k) + stdDev * Deviation(prices, period, k, sqrt)
  }

  function LowerAt(prices: seq<real>, period: nat, stdDev: real, k: nat, sqrt: real -> real): real
    requires 1 <= period && k + period <= |prices|
  {
    SmaAt(prices, period, k) - stdDev * Deviation(prices, period, k, sqrt)
  }

  /** Takes the SMA series as the middle band and, for each window, adds and
      subtracts `stdDev` times the square root of its population variance. */
  method CalculateBollingerBands(prices: seq<real>, period: nat, stdDev: real, sqrt: real -> real) returns (b: Bands)
    requires 1 <= period
    ensures b.middle == Sma(prices, period)
    ensures |b.upper| == |b.middle| == |b.lower| == WindowCount(|prices|, period)
    ensures forall k :: 0 <= k < |b.middle| ==>
      b.upper[k] == UpperAt(prices, period, stdDev, k, sqrt) && b.lower[k] == LowerAt(prices, period, stdDev, k, sqrt)
  {
    var sma := CalculateSMA(prices, period);
    var upper := [];
    var lower := [];
    var i := 0;
    while i < |sma|
      invariant 0 <= i <= |sma|
      invariant |upper| == |lower| == i
      invariant forall k :: 0 <= k < i ==>
        upper[k] == UpperAt(prices, period, stdDev, k, sqrt) && lower[k] == LowerAt(prices, period, stdDev, k, sqrt)
    {
      var dataIndex := i + period - 1;
      var slice := prices[dataIndex - period + 1..dataIndex + 1];
      var mean := sma[i];
      var variance := SumSquaredDeviations(slice, mean) / period as real;
      var standardDeviation := sqrt(variance);
      upper := upper + [mean + stdDev * standardDeviation];
      lower := lower + [mean - stdDev * standardDeviation];
      i := i + 1;
    }
    b := Bands(upper, sma, lower);
  }

  /** The bands sit symmetrically around the middle, `stdDev` deviations
      away, and with a non-negative multiplier they are ordered. */
  lemma BandsOrdered(prices: seq<real>, period: nat, stdDev: real, k: nat, sqrt: real -> real)
    requires 1 <= period && k + period <= |prices|
    requires RootLike(sqrt)
    ensures UpperAt(prices, period, stdDev, k, sqrt) - SmaAt(prices, period, k)
         == SmaAt(prices, period, k) - LowerAt(prices, period, stdDev, k, sqrt)
         == stdDev * Deviation(prices, period, k, sqrt)
    ensures Deviation(prices, period, k, sqrt) >= 0.0
    ensures stdDev >= 0.0 ==>
      LowerAt(prices, period, stdDev, k, sqrt) <= SmaAt(prices, period, k) <= UpperAt(prices, period, stdDev, k, sqrt)
  {
    var sd := Deviation(prices, period, k, sqrt);
    assert sd >= 0.0;
    assert stdDev >= 0.0 ==> stdDev * sd >= 0.0;
  }

  /** A constant window has zero variance, so all three bands meet at the
      price. */
  lemma ConstantPricesCollapseBands(prices: seq<real>, period: nat, stdDev: real, k: nat, sqrt: real -> real, c: real)
    requires 1 <= period && k + period <= |prices|
    requires RootLike(sqrt)
    requires Constant(prices, c)
    ensures Deviation(prices, period, k, sqrt) == 0.0
    ensures UpperAt(prices, period, stdDev, k, sqrt) == SmaAt(prices, period, k) == LowerAt(prices, period, stdDev, k, sqrt) == c
  {
    var w := prices[k..k + period];
    forall i | 0 <= i < |w| ensures w[i] == c {
      assert w[i] == prices[k + i];
    }
    MeanOfConstant(w, c);
    SumSquaredDeviationsOfConstant(w, c);
  }
}
