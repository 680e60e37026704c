/** Support and resistance detection (`TechnicalIndicators.findSupportResistance`):
    a bar is a support when no low within `lookback` bars on either side is
    strictly lower, and a resistance when no high there is strictly higher,
    so ties count. The found values are deduplicated and sorted, supports
    descending and resistances ascending. */
module SupportResistance {
  import opened Ordering

  datatype Levels = Levels(supports: seq<real>, resistances: seq<real>)

  /** Bar `i` has a full window of `lookback` bars on both sides. */
  predicate Scannable(n: nat, lookback: nat, i: nat)
  {
    lookback <= i && i + lookback < n
  }

  /** No low in the window around `i` is strictly below `lows[i]`. */
  predicate IsLocalLow(lows: seq<real>, lookback: nat, i: nat)
    requires Scannable(|lows|, lookback, i)
  {
    forall j :: i - lookback <= j <= i + lookback && j != i ==> lows[j] >= lows[i]
  }

  /** No high in the window around `i` is strictly above `highs[i]`. */
  predicate IsLocalHigh(highs: seq<real>, lookback: nat, i: nat)
    requires Scannable(|highs|, lookback, i)
  {
    forall j :: i - lookback <= j <= i + lookback && j != i ==> highs[j] <= highs[i]
  }

  /** The support candidates among bars `lookback .. m - 1`, in bar order,
      repeats included. */
  function LocalLows(lows: seq<real>, lookback: nat, m: nat): (r: seq<real>)
    requires m + lookback <= |lows|
    ensures forall x :: x in r <==> exists i :: lookback <= i < m && IsLocalLow(lows, lookback, i) && lows[i] == x
  {
    if m <= lookback then []
    else
      var prev := LocalLows(lows, lookback, m - 1);
      if IsLocalLow(lows, lookback, m - 1) then prev + [lows[m - 1]] else prev
  }

  /** The resistance candidates among bars `lookback .. m - 1`, in bar order,
      repeats included. */
  function LocalHighs(highs: seq<real>, lookback: nat, m: nat): (r: seq<real>)
    requires m + lookback <= |highs|
    ensures forall x :: x in r <==> exists i :: lookback <= i < m && IsLocalHigh(highs, lookback, i) && highs[i] == x
  {
    if m <= lookback then []
    else
      var prev := LocalHighs(highs, lookback, m - 1);
      if IsLocalHigh(highs, lookback, m - 1) then prev + [highs[m - 1]] else prev
  }

  /** The inner support test: walks the window and stops at the first
      strictly lower low. */
  method ScanLow(lows: seq<real>, lookback: nat, i: nat) returns (isSupport: bool)
    requires Scannable(|lows|, lookback, i)
    ensures isSupport <==> IsLocalLow(lows, lookback, i)
  {
    var currentLow := lows[i];
    isSupport := true;
    var j := i - lookback;
    while j <= i + lookback
      invariant i - lookback <= j <= i + lookback + 1
      invariant forall k :: i - lookback <= k < j && k != i ==> lows[k] >= currentLow
    {
      if j != i && lows[j] < currentLow {
        isSupport := false;
        break;
      }
      j := j + 1;
    }
  }

  /** The inner resistance test: walks the window and stops at the first
      strictly higher high. */
  method ScanHigh(highs: seq<real>, lookback: nat, i: nat) returns (isResistance: bool)
    requires Scannable(|highs|, lookback, i)
    ensures isResistance <==> IsLocalHigh(highs, lookback, i)
  {
    var currentHigh := highs[i];
    isResistance := true;
    var j := i - lookback;
    while j <= i + lookback
      invariant i - lookback <= j <= i + lookback + 1
      invariant forall k :: i - lookback <= k < j && k != i ==> highs[k] <= currentHigh
    {
      if j != i && highs[j] > currentHigh {
        isResistance := false;
        break;
      }
      j := j + 1;
    }
  }

  /** Scans every bar with a full window, collects the supports from `lows`
      and the resistances from `highs`, then removes repeats and sorts. */
  method FindSupportResistance(highs: seq<real>, lows: seq<real>, lookback: nat) returns (r: Levels)
    requires |highs| >= |lows|
    ensures forall x :: x in r.supports <==>
      exists i: nat :: Scannable(|lows|, lookback, i) && IsLocalLow(lows, lookback, i) && lows[i] == x
    ensures forall x :: x in r.resistances <==>
      exists i: nat :: Scannable(|lows|, lookback, i) && IsLocalHigh(highs, lookback, i) && highs[i] == x
    ensures StrictlyOrdered(r.supports, true)
    ensures StrictlyOrdered(r.resistances, false)
    ensures |lows| >= 2 * lookback ==>
      r.supports == SortedDistinct(LocalLows(lows, lookback, |lows| - lookback), true)
    ensures |lows| >= 2 * lookback ==>
      r.resistances == SortedDistinct(LocalHighs(highs, lookback, |lows| - lookback), false)
  {
    var supports, resistances := ScanBars(highs, lows, lookback);
    SupportCandidates(lows, lookback, supports);
    ResistanceCandidates(highs, lows, lookback, resistances);
    r := Levels(SortedDistinct(supports, true), SortedDistinct(resistances, false));
  }

  /** The scanning loop, before repeats are removed: the candidates of every
      bar with a full window, in bar order; none when the series is shorter
      than two windows. */
  method ScanBars(highs: seq<real>, lows: seq<real>, lookback: nat) returns (supports: seq<real>, resistances: seq<real>)
    requires |highs| >= |lows|
    ensures |lows| >= 2 * lookback ==> supports == LocalLows(lows, lookback, |lows| - lookback)
    ensures |lows| >= 2 * lookback ==> resistances == LocalHighs(highs, lookback, |lows| - lookback)
    ensures |lows| < 2 * lookback ==> supports == [] && resistances == []
  {
    supports := [];
    resistances := [];
    var i := lookback;
    while i < |lows| - lookback
      invariant lookback <= i
      invariant i <= |lows| - lookback || i == lookback
      invariant i + lookback <= |lows| ==> supports == LocalLows(lows, lookback, i)
      invariant i + lookback <= |lows| ==> resistances == LocalHighs(highs, lookback, i)
      invariant i + lookback > |lows| ==> supports == [] && resistances == []
    {
      var isSupport := ScanLow(lows, lookback, i);
      if isSupport {
        supports := supports + [lows[i]];
      }
      var isResistance := ScanHigh(highs, lookback, i);
      if isResistance {
        resistances := resistances + [highs[i]];
      }
      i := i + 1;
    }
  }

  /** The support candidates are exactly the lows of the local lows. */
  lemma SupportCandidates(lows: seq<real>, lookback: nat, supports: seq<real>)
    requires |lows| >= 2 * lookback ==> supports == LocalLows(lows, lookback, |lows| - lookback)
    requires |lows| < 2 * lookback ==> supports == []
    ensures forall x :: x in supports <==>
      exists i: nat :: Scannable(|lows|, lookback, i) && IsLocalLow(lows, lookback, i) && lows[i] == x
  {
    forall x | exists i: nat :: Scannable(|lows|, lookback, i) && IsLocalLow(lows, lookback, i) && lows[i] == x
      ensures x in supports
    {
      var i: nat :| Scannable(|lows|, lookback, i) && IsLocalLow(lows, lookback, i) && lows[i] == x;
      assert lookback <= i < |lows| - lookback;
    }
  }

  /** The resistance candidates are exactly the highs of the local highs. */
  lemma ResistanceCandidates(highs: seq<real>, lows: seq<real>, lookback: nat, resistances: seq<real>)
    requires |highs| >= |lows|
    requires |lows| >= 2 * lookback ==> resistances == LocalHighs(highs, lookback, |lows| - lookback)
    requires |lows| < 2 * lookback ==> resistances == []
    ensures forall x :: x in resistances <==>
      exists i: nat :: Scannable(|lows|, lookback, i) && IsLocalHigh(highs, lookback, i) && highs[i] == x
  {
    forall x | exists i: nat :: Scannable(|lows|, lookback, i) && IsLocalHigh(highs, lookback, i) && highs[i] == x
      ensures x in resistances
    {
      var i: nat :| Scannable(|lows|, lookback, i) && IsLocalHigh(highs, lookback, i) && highs[i] == x;
      assert lookback <= i < |lows| - lookback;
    }
  }

  /** Ties count: on a flat stretch every bar is a support, so flat lows
      with at least one full window report exactly one support, their
      common value. A strict comparison would report none. */
  lemma FlatLowsSingleSupport(lows: seq<real>, lookback: nat, c: real)
    requires |lows| > 2 * lookback
    requires forall j :: 0 <= j < |lows| ==> lows[j] == c
    ensures SortedDistinct(LocalLows(lows, lookback, |lows| - lookback), true) == [c]
  {
    var found := LocalLows(lows, lookback, |lows| - lookback);
    assert IsLocalLow(lows, lookback, lookback);
    assert c in found;
    var r := SortedDistinct(found, true);
    assert forall y :: y in r <==> y in [c];
    StrictlyOrderedUnique(r, [c], true);
  }
}
