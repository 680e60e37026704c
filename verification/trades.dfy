/** Executed trades as the reports see them, and the plain totals over them
    (`ReportingTools.exportTradingHistory` and the totals of the monthly
    report). Amounts are exact reals; the decimal strings the exchange sends
    and the fixed-digit formatting of the report are outside the model. */
module Trades {
  import opened Series

  /** One fill: time in milliseconds since the epoch, base quantity, price,
      quote quantity, commission, and whether this account was the buyer. */
  datatype Trade = Trade(time: int, qty: real, price: real, quoteQty: real, commission: real, isBuyer: bool)

  const MillisPerDay: int := 86400000

  /** The calendar-day key of a trade time: the UTC day the ISO date string
      names. Floor division, so times before the epoch fall on earlier days. */
  function DayOf(time: int): (d: int)
    ensures d * MillisPerDay <= time < (d + 1) * MillisPerDay
  {
    time / MillisPerDay
  }

  /** The per-trade amounts the reports add up. */
  datatype Amount = Qty | QuoteQty | Commission | Cost

  function AmountOf(t: Trade, a: Amount): real
  {
    match a
    case Qty => t.qty
    case QuoteQty => t.quoteQty
    case Commission => t.commission
    case Cost => t.qty * t.price
  }

  function Amounts(trades: seq<Trade>, a: Amount): (r: seq<real>)
    ensures |r| == |trades|
  {
    seq(|trades|, i requires 0 <= i < |trades| => AmountOf(trades[i], a))
  }

  /** The left-to-right sum of one amount over the trades, starting at 0. */
  function Total(trades: seq<Trade>, a: Amount): real
  {
    Sum(Amounts(trades, a))
  }

  /** Adding one trade adds its amount. */
  lemma TotalSnoc(trades: seq<Trade>, t: Trade, a: Amount)
    ensures Total(trades + [t], a) == Total(trades, a) + AmountOf(t, a)
  {
    assert Amounts(trades + [t], a)[..|trades|] == Amounts(trades, a);
  }

  lemma {:induction false} TotalAppend(x: seq<Trade>, y: seq<Trade>, a: Amount)
    ensures Total(x + y, a) == Total(x, a) + Total(y, a)
  {
    assert Amounts(x + y, a) == Amounts(x, a) + Amounts(y, a);
    SumAppend(Amounts(x, a), Amounts(y, a));
  }

  /** The buy fills, in order. */
  function Buys(trades: seq<Trade>): (r: seq<Trade>)
    ensures |r| <= |trades|
    ensures forall i :: 0 <= i < |r| ==> r[i].isBuyer
    ensures forall i :: 0 <= i < |trades| && trades[i].isBuyer ==> trades[i] in r
  {
    if |trades| == 0 then []
    else
      var last := trades[|trades| - 1];
      assert trades == trades[..|trades| - 1] + [last];
      Buys(trades[..|trades| - 1]) + (if last.isBuyer then [last] else [])
  }

  /** The sell fills, in order. */
  function Sells(trades: seq<Trade>): (r: seq<Trade>)
    ensures |r| <= |trades|
    ensures forall i :: 0 <= i < |r| ==> !r[i].isBuyer
    ensures forall i :: 0 <= i < |trades| && !trades[i].isBuyer ==> trades[i] in r
  {
    if |trades| == 0 then []
    else
      var last := trades[|trades| - 1];
      assert trades == trades[..|trades| - 1] + [last];
      Sells(trades[..|trades| - 1]) + (if last.isBuyer then [] else [last])
  }

  /** Every trade is exactly one of a buy or a sell, so the two counts add
      up to the trade count. */
  lemma {:induction false} BuySellCount(trades: seq<Trade>)
    ensures |Buys(trades)| + |Sells(trades)| == |trades|
  {
    if |trades| > 0 {
      BuySellCount(trades[..|trades| - 1]);
    }
  }

  /** `qty * lo <= qty * price <= qty * hi` for a non-negative quantity. */
  lemma ScaledWithin(qty: real, price: real, lo: real, hi: real)
    requires qty >= 0.0 && lo <= price <= hi
    ensures qty * lo <= qty * price <= qty * hi
  {
    assert qty * (price - lo) >= 0.0;
    assert qty * (hi - price) >= 0.0;
  }

  /** When every buy is priced within `[lo, hi]`, the bought cost lies
      between the bought quantity valued at `lo` and at `hi`. */
  lemma {:induction false} BuyCostWithin(trades: seq<Trade>, lo: real, hi: real)
    requires forall i :: 0 <= i < |trades| && trades[i].isBuyer ==> trades[i].qty >= 0.0 && lo <= trades[i].price <= hi
    ensures Total(Buys(trades), Qty) * lo <= Total(Buys(trades), Cost) <= Total(Buys(trades), Qty) * hi
  {
    if |trades| > 0 {
      var init := trades[..|trades| - 1];
      var last := trades[|trades| - 1];
      BuyCostWithin(init, lo, hi);
      if last.isBuyer {
        assert Buys(trades) == Buys(init) + [last];
        TotalSnoc(Buys(init), last, Qty);
        TotalSnoc(Buys(init), last, Cost);
        ScaledWithin(last.qty, last.price, lo, hi);
        var q := Total(Buys(init), Qty);
        assert (q + last.qty) * lo == q * lo + last.qty * lo;
        assert (q + last.qty) * hi == q * hi + last.qty * hi;
      } else {
        assert Buys(trades) == Buys(init);
      }
    }
  }

  /** The volume-weighted mean buy price lies within any bounds of the buy
      prices. */
  lemma BuyMeanPriceWithin(trades: seq<Trade>, lo: real, hi: real)
    requires forall i :: 0 <= i < |trades| && trades[i].isBuyer ==> trades[i].qty >= 0.0 && lo <= trades[i].price <= hi
    ensures Total(Buys(trades), Qty) > 0.0 ==>
      lo <= Total(Buys(trades), Cost) / Total(Buys(trades), Qty) <= hi
  {
    BuyCostWithin(trades, lo, hi);
    MeanOfBoundedCost(trades, lo, hi);
  }

  lemma MeanOfBoundedCost(trades: seq<Trade>, lo: real, hi: real)
    requires Total(Buys(trades), Qty) * lo <= Total(Buys(trades), Cost) <= Total(Buys(trades), Qty) * hi
    ensures Total(Buys(trades), Qty) > 0.0 ==>
      lo <= Total(Buys(trades), Cost) / Total(Buys(trades), Qty) <= hi
  {
    if Total(Buys(trades), Qty) > 0.0 {
      QuotientWithin(Total(Buys(trades), Cost), Total(Buys(trades), Qty), lo, hi);
    }
  }

  /** The trade-history summary: count, summed quantity, quote quantity and
      commission, and the mean quantity per trade (0 without trades). */
  datatype Summary = Summary(totalTrades: nat, totalVolume: real, totalQuoteVolume: real,
                             totalCommission: real, avgTradeSize: real)

  function Summarize(trades: seq<Trade>): (s: Summary)
    ensures s.totalTrades == |trades|
    ensures s.totalTrades == 0 ==> s.avgTradeSize == 0.0
    ensures s.totalTrades > 0 ==> s.avgTradeSize * s.totalTrades as real == s.totalVolume
  {
    var n := |trades|;
    var volume := Total(trades, Qty);
    Summary(n, volume, Total(trades, QuoteQty), Total(trades, Commission),
            if n > 0 then volume / n as real else 0.0)
  }

  /** The average trade size lies between the smallest and the largest
      quantity traded. */
  lemma AvgTradeSizeWithin(trades: seq<Trade>, lo: real, hi: real)
    requires |trades| > 0
    requires forall i :: 0 <= i < |trades| ==> lo <= trades[i].qty <= hi
    ensures lo <= Summarize(trades).avgTradeSize <= hi
  {
    MeanWithin(Amounts(trades, Qty), lo, hi);
  }

  /** Summaries of two batches combine: counts and totals add up. */
  lemma SummarizeAppend(x: seq<Trade>, y: seq<Trade>)
    ensures Summarize(x + y).totalTrades == Summarize(x).totalTrades + Summarize(y).totalTrades
    ensures Summarize(x + y).totalVolume == Summarize(x).totalVolume + Summarize(y).totalVolume
    ensures Summarize(x + y).totalQuoteVolume == Summarize(x).totalQuoteVolume + Summarize(y).totalQuoteVolume
    ensures Summarize(x + y).totalCommission == Summarize(x).totalCommission + Summarize(y).totalCommission
  {
    TotalAppend(x, y, Qty);
    TotalAppend(x, y, QuoteQty);
    TotalAppend(x, y, Commission);
  }
}
