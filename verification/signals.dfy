/** The labels the indicator tools attach to the latest indicator values:
    RSI zones, the MACD crossover, the Bollinger position, the overall
    moving-average trend, and the nearest support and resistance. */
module Signals {
  import opened Rsi
  import opened Ordering

  datatype Option<T> = None | Some(value: T)

  datatype Label = Overbought | Oversold | Neutral | Bullish | Bearish | StrongBullish | StrongBearish

  /** Where the price sits relative to the Bollinger Bands. */
  datatype BandPosition = Upper | Lower | UpperHalf | LowerHalf

  /** The RSI zone of the latest reading: above 70 is overbought, below 30
      oversold. A missing reading or a not-a-number reading fails both
      comparisons and is neutral. */
  function RsiLabel(rsi: seq<RsiValue>): (l: Label)
    ensures l == Overbought <==> |rsi| > 0 && rsi[|rsi| - 1].Defined? && rsi[|rsi| - 1].value > 70.0
    ensures l == Oversold <==> |rsi| > 0 && rsi[|rsi| - 1].Defined? && rsi[|rsi| - 1].value < 30.0
    ensures l == Neutral <==>
      |rsi| == 0 || rsi[|rsi| - 1].NotANumber? || 30.0 <= rsi[|rsi| - 1].value <= 70.0
  {
    if |rsi| == 0 then Neutral
    else match rsi[|rsi| - 1]
      case NotANumber => Neutral
      case Defined(v) => if v > 70.0 then Overbought else if v < 30.0 then Oversold else Neutral
  }

  /** A strictly rising series is overbought, a strictly falling one
      oversold, and a flat one neutral. */
  lemma RsiLabelOfMonotonePrices(prices: seq<real>, period: nat)
    requires 1 <= period && period + 1 <= |prices|
    ensures StrictlyRising(prices) ==> RsiLabel(Readings(prices, period, |prices| - period)) == Overbought
    ensures StrictlyFalling(prices) ==> RsiLabel(Readings(prices, period, |prices| - period)) == Oversold
    ensures (forall i :: 0 <= i < |prices| ==> prices[i] == prices[0]) ==>
      RsiLabel(Readings(prices, period, |prices| - period)) == Neutral
  {
    var m := |prices| - period;
    ReadingAt(prices, period, m, m - 1);
    if StrictlyRising(prices) {
      RisingPricesReadHundred(prices, period, m - 1);
    }
    if StrictlyFalling(prices) {
      FallingPricesReadZero(prices, period, m - 1);
    }
    if forall i :: 0 <= i < |prices| ==> prices[i] == prices[0] {
      FlatPricesReadNotANumber(prices, period, m - 1, prices[0]);
    }
  }

  /** The MACD crossover label: bullish when the MACD is above its signal and
      the histogram positive, bearish in the mirror case, else neutral. */
  function MacdLabel(macd: real, signal: real, histogram: real): (l: Label)
    ensures l == Bullish <==> macd > signal && histogram > 0.0
    ensures l == Bearish <==> macd < signal && histogram < 0.0
    ensures l == Bullish || l == Bearish || l == Neutral
  {
    if macd > signal && histogram > 0.0 then Bullish
    else if macd < signal && histogram < 0.0 then Bearish
    else Neutral
  }

  /** When the three latest values come from one MACD computation, the
      latest histogram bar is exactly MACD minus signal, so the label
      depends on that difference alone. */
  lemma {:induction false} AlignedMacdLabel(macd: seq<real>, signal: seq<real>, histogram: seq<real>, signalPeriod: nat)
    requires 1 <= signalPeriod && |signal| >= 1
    requires |signal| == |macd| - signalPeriod + 1 && |histogram| == |signal|
    requires forall j :: 0 <= j < |histogram| ==> histogram[j] == macd[j + signalPeriod - 1] - signal[j]
    ensures histogram[|histogram| - 1] == macd[|macd| - 1] - signal[|signal| - 1]
    ensures MacdLabel(macd[|macd| - 1], signal[|signal| - 1], histogram[|histogram| - 1]) ==
      (if macd[|macd| - 1] > signal[|signal| - 1] then Bullish
       else if macd[|macd| - 1] < signal[|signal| - 1] then Bearish
       else Neutral)
  {
    var j := |histogram| - 1;
    assert j + signalPeriod - 1 == |macd| - 1;
    assert histogram[j] == macd[j + signalPeriod - 1] - signal[j];
  }

  /** The Bollinger label and position of the latest price: on or beyond a
      band is overbought or oversold, otherwise the side of the middle band
      decides. */
  function BollingerLabel(price: real, upper: real, middle: real, lower: real): (r: (Label, BandPosition))
    ensures r.0 != Neutral
    ensures r == (Overbought, Upper) <==> price >= upper
    ensures r == (Oversold, Lower) <==> price < upper && price <= lower
    ensures r == (Bullish, UpperHalf) <==> lower < price < upper && price > middle
    ensures r == (Bearish, LowerHalf) <==> lower < price < upper && price <= middle
  {
    if price >= upper then (Overbought, Upper)
    else if price <= lower then (Oversold, Lower)
    else if price > middle then (Bullish, UpperHalf)
    else (Bearish, LowerHalf)
  }

  /** When the bands have collapsed onto the middle (a zero multiplier or a
      flat window) the price is always on a band, never in a half. */
  lemma CollapsedBandsHaveNoHalves(price: real, c: real)
    ensures BollingerLabel(price, c, c, c).1 == Upper || BollingerLabel(price, c, c, c).1 == Lower
    ensures BollingerLabel(price, c, c, c).1 == Lower <==> price < c
  {
  }

  /** The overall trend from the number of moving averages the price is above
      and the number of requested periods, branch for branch as written. */
  function TrendLabel(aboveCount: nat, totalCount: nat): (l: Label)
    ensures l != StrongBearish
    ensures l == StrongBullish <==> aboveCount == totalCount
    ensures aboveCount == 0 < totalCount ==> l == Bearish
  {
    if aboveCount == totalCount then StrongBullish
    else if aboveCount as real > totalCount as real * 0.7 then Bullish
    else if (aboveCount as real) < totalCount as real * 0.3 then Bearish
    else if aboveCount == 0 then StrongBearish
    else Neutral
  }

  /** Where the two orders part: with a price below all of five averages
      the code as written says bearish, the intended order strongly bearish. */
  lemma TrendBelowEverything()
    ensures TrendLabel(0, 5) == Bearish
    ensures IntendedTrendLabel(0, 5) == StrongBearish
  {
  }

  /** The trend with the zero-count test placed before the 30% test, so that
      a price below every average is strongly bearish. */
  function IntendedTrendLabel(aboveCount: nat, totalCount: nat): (l: Label)
    requires aboveCount <= totalCount
    ensures l == StrongBullish <==> aboveCount == totalCount
    ensures l == StrongBearish <==> aboveCount == 0 < totalCount
    ensures l == Bullish <==> 0 < aboveCount < totalCount && aboveCount as real > totalCount as real * 0.7
    ensures l == Bearish <==> 0 < aboveCount && aboveCount as real < totalCount as real * 0.3
    ensures l == Neutral <==>
      0 < aboveCount < totalCount && totalCount as real * 0.3 <= aboveCount as real <= totalCount as real * 0.7
  {
    if aboveCount == totalCount then StrongBullish
    else if aboveCount == 0 then StrongBearish
    else if aboveCount as real > totalCount as real * 0.7 then Bullish
    else if (aboveCount as real) < totalCount as real * 0.3 then Bearish
    else Neutral
  }

  /** Above a moving average: the latest average exists and the price is
      strictly greater. A missing average compares false, so it counts as
      below. */
  predicate Above(price: real, latest: Option<real>)
  {
    latest.Some? && price > latest.value
  }

  /** The per-period signals after the first `m` periods: one entry per
      distinct period, a later duplicate overwriting an earlier one. */
  function SignalsOf(price: real, periods: seq<nat>, latest: seq<Option<real>>, m: nat): (signals: map<nat, bool>)
    requires |periods| == |latest| && m <= |periods|
    ensures signals.Keys == set i | 0 <= i < m :: periods[i]
  {
    if m == 0 then map[]
    else SignalsOf(price, periods, latest, m - 1)[periods[m - 1] := Above(price, latest[m - 1])]
  }

  /** Records, period by period, whether the price is above that period's
      latest moving average. */
  method ClassifyAverages(price: real, periods: seq<nat>, latest: seq<Option<real>>) returns (signals: map<nat, bool>)
    requires |periods| == |latest|
    ensures signals == SignalsOf(price, periods, latest, |periods|)
    ensures signals.Keys == set i | 0 <= i < |periods| :: periods[i]
  {
    signals := map[];
    for i := 0 to |periods|
      invariant signals == SignalsOf(price, periods, latest, i)
    {
      signals := signals[periods[i] := Above(price, latest[i])];
    }
  }

  /** The number of entries saying "above". */
  function AboveCount(signals: map<nat, bool>): (n: nat)
    ensures n <= |signals.Keys|
  {
    var above := set p | p in signals && signals[p];
    assert above <= signals.Keys;
    SubsetSize(above, signals.Keys);
    |above|
  }

  lemma {:induction false} SubsetSize(a: set<nat>, b: set<nat>)
    requires a <= b
    ensures |a| <= |b|
    decreases |b|
  {
    if a != {} {
      var x :| x in a;
      SubsetSize(a - {x}, b - {x});
    }
  }

  /** The distinct values of a sequence never outnumber its elements, and
      are fewer when some value repeats. */
  lemma {:induction false} DistinctCount(s: seq<nat>, m: nat)
    requires m <= |s|
    ensures |set i | 0 <= i < m :: s[i]| <= m
    ensures (exists i, j :: 0 <= i < j < m && s[i] == s[j]) ==> |set i | 0 <= i < m :: s[i]| < m
  {
    if m > 0 {
      DistinctCount(s, m - 1);
      var prefix := set i | 0 <= i < m - 1 :: s[i];
      var all := set i | 0 <= i < m :: s[i];
      assert all == prefix + {s[m - 1]};
      if exists i, j :: 0 <= i < j < m && s[i] == s[j] {
        var i, j :| 0 <= i < j < m && s[i] == s[j];
        if j == m - 1 {
          assert s[m - 1] in prefix;
          assert all == prefix;
        }
      }
    }
  }

  /** When a period is requested twice the two signals share one entry, so
      the above-count falls short of the period count and the trend can
      never be strongly bullish, even with the price above every average. */
  lemma DuplicatePeriodsNeverStrongBullish(price: real, periods: seq<nat>, latest: seq<Option<real>>)
    requires |periods| == |latest|
    requires exists i, j :: 0 <= i < j < |periods| && periods[i] == periods[j]
    ensures AboveCount(SignalsOf(price, periods, latest, |periods|)) < |periods|
    ensures TrendLabel(AboveCount(SignalsOf(price, periods, latest, |periods|)), |periods|) != StrongBullish
  {
    DistinctCount(periods, |periods|);
  }

  /** `x` is below (or above) the price. */
  predicate Passes(x: real, price: real, below: bool)
  {
    if below then x < price else x > price
  }

  /** `s[i]` passes and no element before it does. */
  ghost predicate FirstPassingAt(s: seq<real>, i: int, price: real, below: bool)
  {
    0 <= i < |s| && Passes(s[i], price, below) && forall j :: 0 <= j < i ==> !Passes(s[j], price, below)
  }

  /** The first element of `s` below (or above) the price, as the array
      search does. */
  function FindFirst(s: seq<real>, price: real, below: bool): (r: Option<real>)
    ensures r.Some? ==> r.value in s && Passes(r.value, price, below)
    ensures r.Some? ==> exists i :: FirstPassingAt(s, i, price, below) && s[i] == r.value
    ensures r.None? <==> forall x :: x in s ==> !Passes(x, price, below)
  {
    if |s| == 0 then None
    else if Passes(s[0], price, below) then
      assert FirstPassingAt(s, 0, price, below);
      Some(s[0])
    else
      var r := FindFirst(s[1..], price, below);
      assert forall x :: x in s <==> x == s[0] || x in s[1..];
      FirstPassingShift(s, r, price, below);
      r
  }

  /** A first passing element of `s[1..]` is the first passing element of
      `s` when `s[0]` does not pass. */
  lemma FirstPassingShift(s: seq<real>, r: Option<real>, price: real, below: bool)
    requires |s| > 0 && !Passes(s[0], price, below)
    requires r.Some? ==> exists i :: FirstPassingAt(s[1..], i, price, below) && s[1..][i] == r.value
    ensures r.Some? ==> exists i :: FirstPassingAt(s, i, price, below) && s[i] == r.value
  {
    if r.Some? {
      var i :| FirstPassingAt(s[1..], i, price, below) && s[1..][i] == r.value;
      forall j | 0 <= j < i + 1 ensures !Passes(s[j], price, below) {
        if j > 0 {
          assert s[j] == s[1..][j - 1];
        }
      }
      assert FirstPassingAt(s, i + 1, price, below);
    }
  }

  /** The nearest support: the first support below the price, where a level
      of exactly 0 reads as absent. */
  function NearestSupport(supports: seq<real>, price: real): Option<real>
  {
    var r := FindFirst(supports, price, true);
    if r.Some? && r.value == 0.0 then None else r
  }

  /** The nearest resistance: the first resistance above the price, where a
      level of exactly 0 reads as absent. */
  function NearestResistance(resistances: seq<real>, price: real): Option<real>
  {
    var r := FindFirst(resistances, price, false);
    if r.Some? && r.value == 0.0 then None else r
  }

  /** In a sequence sorted with larger first, the first value below the
      price is the largest value below it. */
  lemma {:induction false} FirstBelowIsLargest(s: seq<real>, price: real)
    requires StrictlyOrdered(s, true)
    ensures FindFirst(s, price, true).Some? ==>
      forall x :: x in s && x < price ==> x <= FindFirst(s, price, true).value
  {
    if |s| > 0 && !(s[0] < price) {
      FirstBelowIsLargest(s[1..], price);
      forall x | x in s && x < price ensures x in s[1..] {
        assert x != s[0];
      }
    }
  }

  /** In a sequence sorted with smaller first, the first value above the
      price is the smallest value above it. */
  lemma {:induction false} FirstAboveIsSmallest(s: seq<real>, price: real)
    requires StrictlyOrdered(s, false)
    ensures FindFirst(s, price, false).Some? ==>
      forall x :: x in s && x > price ==> FindFirst(s, price, false).value <= x
  {
    if |s| > 0 && !(s[0] > price) {
      FirstAboveIsSmallest(s[1..], price);
      forall x | x in s && x > price ensures x in s[1..] {
        assert x != s[0];
      }
    }
  }

  /** On the detector's sorted lists the nearest support is the largest
      support strictly below the price and the nearest resistance the
      smallest resistance strictly above it; either is absent only when
      there is no such level or that level is 0. */
  lemma NearestLevels(supports: seq<real>, resistances: seq<real>, price: real)
    requires StrictlyOrdered(supports, true) && StrictlyOrdered(resistances, false)
    ensures NearestSupport(supports, price).Some? ==>
      var s := NearestSupport(supports, price).value;
      s in supports && s < price && s != 0.0 && forall x :: x in supports && x < price ==> x <= s
    ensures NearestSupport(supports, price).None? ==>
      forall x :: x in supports && x < price ==> x <= 0.0
    ensures NearestResistance(resistances, price).Some? ==>
      var r := NearestResistance(resistances, price).value;
      r in resistances && r > price && r != 0.0 && forall x :: x in resistances && x > price ==> r <= x
    ensures NearestResistance(resistances, price).None? ==>
      forall x :: x in resistances && x > price ==> 0.0 <= x
  {
    FirstBelowIsLargest(supports, price);
    FirstAboveIsSmallest(resistances, price);
  }
}
