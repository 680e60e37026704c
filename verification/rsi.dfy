/** Wilder-smoothed Relative Strength Index (`TechnicalIndicators.calculateRSI`). */
module Rsi {
  import opened Series

  /** One RSI reading as the host's floating-point division yields it:
      `avgLoss == 0` with `avgGain > 0` makes `rs` infinite and the reading
      exactly 100; `avgLoss == avgGain == 0` makes `rs = 0 / 0`, which is not
      a number. */
  datatype RsiValue = Defined(value: real) | NotANumber

  /** Upward move from `prices[i]` to `prices[i + 1]`, or 0. */
  function Gain(prices: seq<real>, i: nat): real
    requires i + 1 < |prices|
  {
    var change := prices[i + 1] - prices[i];
    if change > 0.0 then change else 0.0
  }

  /** Downward move from `prices[i]` to `prices[i + 1]` as a positive amount, or 0. */
  function Loss(prices: seq<real>, i: nat): real
    requires i + 1 < |prices|
  {
    var change := prices[i + 1] - prices[i];
    if change < 0.0 then -change else 0.0
  }

  /** The `gains` array: one entry per consecutive pair of prices. */
  function Gains(prices: seq<real>): seq<real>
  {
    if |prices| == 0 then []
    else seq(|prices| - 1, i requires 0 <= i < |prices| - 1 => Gain(prices, i))
  }

  /** The `losses` array: one entry per consecutive pair of prices. */
  function Losses(prices: seq<real>): seq<real>
  {
    if |prices| == 0 then []
    else seq(|prices| - 1, i requires 0 <= i < |prices| - 1 => Loss(prices, i))
  }

  /** Gains and losses split every price change into two non-negative parts. */
  lemma GainLossSplit(prices: seq<real>, i: nat)
    requires i + 1 < |prices|
    ensures Gain(prices, i) >= 0.0 && Loss(prices, i) >= 0.0
    ensures Gain(prices, i) - Loss(prices, i) == prices[i + 1] - prices[i]
    ensures Gain(prices, i) == 0.0 || Loss(prices, i) == 0.0
  {
  }

  lemma GainsNonNegative(prices: seq<real>, n: nat)
    requires n < |prices|
    ensures forall i :: 0 <= i < n ==> Gains(prices)[..n][i] >= 0.0 && Losses(prices)[..n][i] >= 0.0
  {
  }

  /** Wilder's smoothing step `(avg * (period - 1) + x) / period`: a weighted
      mean of the previous average and the new value, so it keeps their sign. */
  function Smooth(avg: real, x: real, period: nat): (r: real)
    requires 1 <= period
    ensures avg >= 0.0 && x >= 0.0 ==> r >= 0.0
    ensures avg >= 0.0 && x > 0.0 ==> r > 0.0
    ensures avg == 0.0 && x == 0.0 ==> r == 0.0
  {
    var w := (period - 1) as real;
    var p := period as real;
    assert avg >= 0.0 ==> avg * w >= 0.0;
    assert avg * w + x >= 0.0 ==> (avg * w + x) / p >= 0.0;
    assert avg * w + x > 0.0 ==> (avg * w + x) / p > 0.0;
    (avg * w + x) / p
  }

  /** Smoothed average gain for output `j`: the plain mean of the first
      `period` gains, then `(avg * (period - 1) + gain) / period` for each
      further gain. It never becomes negative. */
  function AvgGain(prices: seq<real>, period: nat, j: nat): (g: real)
    requires 1 <= period && period + j < |prices|
    ensures g >= 0.0
    decreases j
  {
    if j == 0 then
      GainsNonNegative(prices, period);
      SumSign(Gains(prices)[..period]);
      QuotientSign(Sum(Gains(prices)[..period]), period as real);
      Sum(Gains(prices)[..period]) / period as real
    else
      Smooth(AvgGain(prices, period, j - 1), Gain(prices, period - 1 + j), period)
  }

  /** Smoothed average loss for output `j`, the counterpart of `AvgGain`. */
  function AvgLoss(prices: seq<real>, period: nat, j: nat): (l: real)
    requires 1 <= period && period + j < |prices|
    ensures l >= 0.0
    decreases j
  {
    if j == 0 then
      GainsNonNegative(prices, period);
      SumSign(Losses(prices)[..period]);
      QuotientSign(Sum(Losses(prices)[..period]), period as real);
      Sum(Losses(prices)[..period]) / period as real
    else
      Smooth(AvgLoss(prices, period, j - 1), Loss(prices, period - 1 + j), period)
  }

  /** Both averages start as the plain mean of the first `period` changes. */
  lemma SeedsAreMeans(prices: seq<real>, period: nat)
    requires 1 <= period && period < |prices|
    ensures AvgGain(prices, period, 0) == Sum(Gains(prices)[..period]) / period as real
    ensures AvgLoss(prices, period, 0) == Sum(Losses(prices)[..period]) / period as real
  {
  }

  /** `100 / (1 + rs)` for a non-negative ratio lies in `(0, 100]` and is 100
      exactly when the ratio is 0. */
  lemma ReciprocalBounds(rs: real)
    requires rs >= 0.0
    ensures 0.0 < 100.0 / (1.0 + rs) <= 100.0
    ensures 100.0 / (1.0 + rs) == 100.0 <==> rs == 0.0
  {
    var d := 1.0 + rs;
    var q := 100.0 / d;
    assert q * d == 100.0;
    if rs > 0.0 {
      assert q * d == q + q * rs;
    }
  }

  /** `100 - 100 / (1 + avgGain / avgLoss)` with the host's treatment of a zero
      `avgLoss`. */
  function RsiOf(avgGain: real, avgLoss: real): (r: RsiValue)
    requires avgGain >= 0.0 && avgLoss >= 0.0
    ensures r.NotANumber? <==> avgGain == 0.0 && avgLoss == 0.0
    ensures r.Defined? ==> 0.0 <= r.value <= 100.0
    ensures r == Defined(100.0) <==> avgLoss == 0.0 && avgGain > 0.0
    ensures r == Defined(0.0) <==> avgGain == 0.0 && avgLoss > 0.0
  {
    if avgLoss > 0.0 then
      var rs := avgGain / avgLoss;
      assert rs * avgLoss == avgGain;
      ReciprocalBounds(rs);
      Defined(100.0 - 100.0 / (1.0 + rs))
    else if avgGain > 0.0 then
      Defined(100.0)
    else
      NotANumber
  }

  /** The first `m` readings, in order. */
  function Readings(prices: seq<real>, period: nat, m: nat): (r: seq<RsiValue>)
    requires 1 <= period && period + m <= |prices|
    ensures |r| == m
  {
    if m == 0 then []
    else Readings(prices, period, m - 1) + [RsiOf(AvgGain(prices, period, m - 1), AvgLoss(prices, period, m - 1))]
  }

  /** Reading `j` is the RSI of the `j`-th pair of smoothed averages. */
  lemma {:induction false} ReadingAt(prices: seq<real>, period: nat, m: nat, j: nat)
    requires 1 <= period && period + m <= |prices| && j < m
    ensures Readings(prices, period, m)[j] == RsiOf(AvgGain(prices, period, j), AvgLoss(prices, period, j))
  {
    if j < m - 1 {
      ReadingAt(prices, period, m - 1, j);
    }
  }

  /** The first loop of the RSI computation: the gain and the loss of every
      consecutive pair of prices, in order. */
  method PriceChanges(prices: seq<real>) returns (gains: seq<real>, losses: seq<real>)
    requires |prices| >= 1
    ensures |gains| == |losses| == |prices| - 1
    ensures forall k :: 0 <= k < |gains| ==>
      gains[k] >= 0.0 && losses[k] >= 0.0 && gains[k] - losses[k] == prices[k + 1] - prices[k]
    ensures gains == Gains(prices) && losses == Losses(prices)
  {
    gains, losses := [], [];
    var i := 1;
    while i < |prices|
      invariant 1 <= i <= |prices|
      invariant |gains| == |losses| == i - 1
      invariant forall k :: 0 <= k < i - 1 ==> gains[k] == Gain(prices, k) && losses[k] == Loss(prices, k)
    {
      var change := prices[i] - prices[i - 1];
      gains := gains + [if change > 0.0 then change else 0.0];
      losses := losses + [if change < 0.0 then -change else 0.0];
      i := i + 1;
    }
  }

  /** Computes the gains and losses, seeds both averages with a plain mean,
      emits one reading, then smooths and emits one reading per remaining
      price change. Fewer than `period + 1` prices yield no reading. */
  method CalculateRSI(prices: seq<real>, period: nat) returns (rsi: seq<RsiValue>)
    requires 1 <= period
    ensures |prices| < period + 1 ==> rsi == []
    ensures |prices| >= period + 1 ==> |rsi| == |prices| - period
    ensures |prices| >= period + 1 ==> rsi == Readings(prices, period, |prices| - period)
  {
    if |prices| < period + 1 {
      return [];
    }
    var gains, losses := PriceChanges(prices);
    var avgGain := Sum(gains[..period]) / period as real;
    var avgLoss := Sum(losses[..period]) / period as real;
    SeedsAreMeans(prices, period);
    rsi := [RsiOf(avgGain, avgLoss)];

    var i := period;
    while i < |gains|
      invariant period <= i <= |gains|
      invariant |rsi| == i - period + 1
      invariant avgGain == AvgGain(prices, period, i - period)
      invariant avgLoss == AvgLoss(prices, period, i - period)
      invariant rsi == Readings(prices, period, |rsi|)
    {
      NextReading(prices, period, i - period + 1);
      assert gains[i] == Gain(prices, i) && losses[i] == Loss(prices, i);
      avgGain := Smooth(avgGain, gains[i], period);
      avgLoss := Smooth(avgLoss, losses[i], period);
      rsi := rsi + [RsiOf(avgGain, avgLoss)];
      i := i + 1;
    }
  }

  /** Reading `j` smooths the previous averages with the `j`-th further
      change and extends the readings by one. */
  lemma NextReading(prices: seq<real>, period: nat, j: nat)
    requires 1 <= period && 1 <= j && period + j < |prices|
    ensures AvgGain(prices, period, j) == Smooth(AvgGain(prices, period, j - 1), Gain(prices, period - 1 + j), period)
    ensures AvgLoss(prices, period, j) == Smooth(AvgLoss(prices, period, j - 1), Loss(prices, period - 1 + j), period)
    ensures Readings(prices, period, j + 1) ==
      Readings(prices, period, j) + [RsiOf(AvgGain(prices, period, j), AvgLoss(prices, period, j))]
  {
  }

  ghost predicate StrictlyRising(prices: seq<real>)
  {
    forall i :: 0 <= i < |prices| - 1 ==> prices[i] < prices[i + 1]
  }

  ghost predicate StrictlyFalling(prices: seq<real>)
  {
    forall i :: 0 <= i < |prices| - 1 ==> prices[i] > prices[i + 1]
  }

  /** Without a single drop the average loss stays 0 and the average gain
      positive, so every reading is exactly 100. */
  lemma {:induction false} RisingPricesReadHundred(prices: seq<real>, period: nat, j: nat)
    requires 1 <= period && period + j < |prices|
    requires StrictlyRising(prices)
    ensures AvgLoss(prices, period, j) == 0.0 && AvgGain(prices, period, j) > 0.0
    ensures RsiOf(AvgGain(prices, period, j), AvgLoss(prices, period, j)) == Defined(100.0)
    decreases j
  {
    if j == 0 {
      var g := Gains(prices)[..period];
      var l := Losses(prices)[..period];
      forall i | 0 <= i < |g| ensures g[i] > 0.0 && l[i] == 0.0 {
        assert g[i] == Gain(prices, i) && l[i] == Loss(prices, i);
      }
      SumSign(g);
      SumSign(l);
      QuotientSign(Sum(g), period as real);
      QuotientSign(Sum(l), period as real);
    } else {
      RisingPricesReadHundred(prices, period, j - 1);
      assert Gain(prices, period - 1 + j) > 0.0;
    }
  }

  /** Without a single rise the average gain stays 0 and the average loss
      positive, so every reading is exactly 0. */
  lemma {:induction false} FallingPricesReadZero(prices: seq<real>, period: nat, j: nat)
    requires 1 <= period && period + j < |prices|
    requires StrictlyFalling(prices)
    ensures AvgGain(prices, period, j) == 0.0 && AvgLoss(prices, period, j) > 0.0
    ensures RsiOf(AvgGain(prices, period, j), AvgLoss(prices, period, j)) == Defined(0.0)
    decreases j
  {
    if j == 0 {
      var g := Gains(prices)[..period];
      var l := Losses(prices)[..period];
      forall i | 0 <= i < |g| ensures g[i] == 0.0 && l[i] > 0.0 {
        assert g[i] == Gain(prices, i) && l[i] == Loss(prices, i);
      }
      SumSign(g);
      SumSign(l);
      QuotientSign(Sum(g), period as real);
      QuotientSign(Sum(l), period as real);
    } else {
      FallingPricesReadZero(prices, period, j - 1);
      assert Loss(prices, period - 1 + j) > 0.0;
    }
  }

  /** On a flat series both averages are 0, so the reading is `0 / 0`: the
      source emits not-a-number here, not the neutral 50. */
  lemma {:induction false} FlatPricesReadNotANumber(prices: seq<real>, period: nat, j: nat, c: real)
    requires 1 <= period && period + j < |prices|
    requires Constant(prices, c)
    ensures AvgGain(prices, period, j) == 0.0 && AvgLoss(prices, period, j) == 0.0
    ensures RsiOf(AvgGain(prices, period, j), AvgLoss(prices, period, j)) == NotANumber
    decreases j
  {
    if j == 0 {
      var g := Gains(prices)[..period];
      var l := Losses(prices)[..period];
      forall i | 0 <= i < |g| ensures g[i] == 0.0 && l[i] == 0.0 {
        assert g[i] == Gain(prices, i) && l[i] == Loss(prices, i);
        assert prices[i] == c && prices[i + 1] == c;
      }
      SumSign(g);
      SumSign(l);
      QuotientSign(Sum(g), period as real);
      QuotientSign(Sum(l), period as real);
    } else {
      FlatPricesReadNotANumber(prices, period, j - 1, c);
      assert prices[period - 1 + j] == c && prices[period + j] == c;
    }
  }
}
