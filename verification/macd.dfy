/** Moving Average Convergence/Divergence (`TechnicalIndicators.calculateMACD`):
    three EMA passes aligned by index offsets. */
module Macd {
  import opened Series
  import opened MovingAverages

  datatype MacdSeries = MacdSeries(macd: seq<real>, signal: seq<real>, histogram: seq<real>)

  /** MACD value `i`: the fast EMA ending at the same price as slow EMA `i`,
      minus that slow EMA. The fast series starts `slow - fast` prices
      earlier, hence the offset. */
  function MacdAt(prices: seq<real>, fast: nat, slow: nat, i: nat): real
    requires 1 <= fast <= slow && slow + i <= |prices|
  {
    EmaAt(prices, fast, i + slow - fast) - EmaAt(prices, slow, i)
  }

  /** The whole MACD line, one value per slow EMA value. */
  function MacdLine(prices: seq<real>, fast: nat, slow: nat): (line: seq<real>)
    requires 1 <= fast <= slow <= |prices|
    ensures |line| == |prices| - slow + 1
  {
    seq(|prices| - slow + 1, i requires 0 <= i < |prices| - slow + 1 => MacdAt(prices, fast, slow, i))
  }

  /** Computes both EMAs, subtracts them pairwise with the offset
      `slow - fast`, smooths the difference into the signal line, and sets
      each histogram bar to the MACD value at the signal's latest input minus
      the signal. */
  method CalculateMACD(prices: seq<real>, fast: nat, slow: nat, signalPeriod: nat) returns (r: MacdSeries)
    requires 1 <= fast <= slow <= |prices|
    requires 1 <= signalPeriod <= |prices| - slow + 1
    ensures |r.macd| == |prices| - slow + 1
    ensures forall i :: 0 <= i < |r.macd| ==> r.macd[i] == MacdAt(prices, fast, slow, i)
    ensures r.macd == MacdLine(prices, fast, slow)
    ensures |r.signal| == |r.macd| - signalPeriod + 1
    ensures forall j :: 0 <= j < |r.signal| ==> r.signal[j] == EmaAt(r.macd, signalPeriod, j)
    ensures |r.histogram| == |r.signal|
    ensures forall j :: 0 <= j < |r.histogram| ==> r.histogram[j] == r.macd[j + signalPeriod - 1] - r.signal[j]
  {
    var fastEma := CalculateEMA(prices, fast);
    var slowEma := CalculateEMA(prices, slow);
    var macd := SubtractAligned(prices, fast, slow, fastEma, slowEma);
    var signal := CalculateEMA(macd, signalPeriod);
    var histogram := HistogramOf(macd, signal, signalPeriod);
    r := MacdSeries(macd, signal, histogram);
  }

  /** The MACD line loop: fast EMA value `i + slow - fast` minus slow EMA
      value `i`, for every slow EMA value. */
  method SubtractAligned(prices: seq<real>, fast: nat, slow: nat, fastEma: seq<real>, slowEma: seq<real>)
    returns (macd: seq<real>)
    requires 1 <= fast <= slow <= |prices|
    requires |fastEma| == |prices| - fast + 1 && |slowEma| == |prices| - slow + 1
    requires forall j :: 0 <= j < |fastEma| ==> fastEma[j] == EmaAt(prices, fast, j)
    requires forall j :: 0 <= j < |slowEma| ==> slowEma[j] == EmaAt(prices, slow, j)
    ensures macd == MacdLine(prices, fast, slow)
  {
    macd := [];
    var startIndex := slow - fast;
    var i := 0;
    while i < |fastEma| - startIndex
      invariant 0 <= i <= |fastEma| - startIndex
      invariant |macd| == i
      invariant forall k :: 0 <= k < i ==> macd[k] == MacdAt(prices, fast, slow, k)
    {
      macd := macd + [fastEma[i + startIndex] - slowEma[i]];
      i := i + 1;
    }
  }

  /** The histogram loop: each signal value against the MACD value that is
      the signal EMA's latest input. */
  method HistogramOf(macd: seq<real>, signal: seq<real>, signalPeriod: nat) returns (histogram: seq<real>)
    requires 1 <= signalPeriod <= |macd| && |signal| == |macd| - signalPeriod + 1
    ensures |histogram| == |signal|
    ensures forall j :: 0 <= j < |histogram| ==> histogram[j] == macd[j + signalPeriod - 1] - signal[j]
  {
    histogram := [];
    var signalStartIndex := signalPeriod - 1;
    var i := 0;
    while i < |signal|
      invariant 0 <= i <= |signal|
      invariant |histogram| == i
      invariant forall k :: 0 <= k < i ==> histogram[k] == macd[k + signalStartIndex] - signal[k]
    {
      histogram := histogram + [macd[i + signalStartIndex] - signal[i]];
      i := i + 1;
    }
  }

  /** When every price lies in `[lo, hi]`, both EMAs do too, so a MACD value
      never exceeds the width of the price range in either direction. */
  lemma MacdWithin(prices: seq<real>, fast: nat, slow: nat, i: nat, lo: real, hi: real)
    requires 1 <= fast <= slow && slow + i <= |prices|
    requires Within(prices, lo, hi)
    ensures -(hi - lo) <= MacdAt(prices, fast, slow, i) <= hi - lo
  {
    EmaWithin(prices, fast, i + slow - fast, lo, hi);
    EmaWithin(prices, slow, i, lo, hi);
  }

  /** A flat market has a flat MACD: the line, the signal and the histogram
      are all zero. */
  lemma ConstantPricesZeroMacd(prices: seq<real>, fast: nat, slow: nat, signalPeriod: nat, c: real)
    requires 1 <= fast <= slow <= |prices|
    requires 1 <= signalPeriod <= |prices| - slow + 1
    requires Constant(prices, c)
    ensures Constant(MacdLine(prices, fast, slow), 0.0)
    ensures forall j :: 0 <= j <= |prices| - slow + 1 - signalPeriod ==>
      EmaAt(MacdLine(prices, fast, slow), signalPeriod, j) == 0.0
    ensures forall j :: 0 <= j <= |prices| - slow + 1 - signalPeriod ==>
      MacdLine(prices, fast, slow)[j + signalPeriod - 1] - EmaAt(MacdLine(prices, fast, slow), signalPeriod, j) == 0.0
  {
    var line := MacdLine(prices, fast, slow);
    forall i | 0 <= i < |line| ensures line[i] == 0.0 {
      EmaOfConstant(prices, fast, i + slow - fast, c);
      EmaOfConstant(prices, slow, i, c);
    }
    forall j | 0 <= j <= |prices| - slow + 1 - signalPeriod
      ensures EmaAt(line, signalPeriod, j) == 0.0
    {
      EmaOfConstant(line, signalPeriod, j, 0.0);
    }
  }
}
