/** The per-symbol part of `ReportingTools.generateMonthlyReport`: the
    fills of the month are grouped by calendar day into a dictionary of daily
    tallies, whose keys keep the order in which the days first occur, and the
    month is summed up as a whole. */
module MonthlyReport {
  import opened Series
  import opened Trades
  import Ordering

  /** One day's tally: fill count, base volume, quote value, fees, and the
      buy and sell counts. */
  datatype DayStats = DayStats(trades: nat, volume: real, value: real, fees: real, buyTrades: nat, sellTrades: nat)

  const EmptyDay := DayStats(0, 0.0, 0.0, 0.0, 0, 0)

  /** What one fill adds to the tally of its day. */
  function AddTrade(d: DayStats, t: Trade): DayStats
  {
    DayStats(d.trades + 1, d.volume + t.qty, d.value + t.quoteQty, d.fees + t.commission,
             if t.isBuyer then d.buyTrades + 1 else d.buyTrades,
             if t.isBuyer then d.sellTrades else d.sellTrades + 1)
  }

  /** The tally of a batch of fills, from an empty day. */
  function DayTally(ts: seq<Trade>): DayStats
  {
    if |ts| == 0 then EmptyDay else AddTrade(DayTally(ts[..|ts| - 1]), ts[|ts| - 1])
  }

  /** A day's tally counts its fills, splits them into buys and sells, and
      holds the plain totals of their quantities, quote values and fees. */
  lemma {:induction false} DayTallyTotals(ts: seq<Trade>)
    ensures DayTally(ts).trades == |ts|
    ensures DayTally(ts).buyTrades == |Buys(ts)| && DayTally(ts).sellTrades == |Sells(ts)|
    ensures DayTally(ts).buyTrades + DayTally(ts).sellTrades == DayTally(ts).trades
    ensures DayTally(ts).volume == Total(ts, Qty)
    ensures DayTally(ts).value == Total(ts, QuoteQty)
    ensures DayTally(ts).fees == Total(ts, Commission)
  {
    if |ts| > 0 {
      var init := ts[..|ts| - 1];
      var last := ts[|ts| - 1];
      DayTallyTotals(init);
      BuySellCount(ts);
      assert init + [last] == ts;
      TotalSnoc(init, last, Qty);
      TotalSnoc(init, last, QuoteQty);
      TotalSnoc(init, last, Commission);
    }
  }

  /** The fills that fall on `day`, in order. */
  function OnDay(trades: seq<Trade>, day: int): (r: seq<Trade>)
    ensures |r| <= |trades|
    ensures forall i :: 0 <= i < |r| ==> DayOf(r[i].time) == day
  {
    if |trades| == 0 then []
    else
      var last := trades[|trades| - 1];
      OnDay(trades[..|trades| - 1], day) + (if DayOf(last.time) == day then [last] else [])
  }

  /** The days on which something was traded. */
  ghost function DaysTraded(trades: seq<Trade>): set<int>
  {
    set i | 0 <= i < |trades| :: DayOf(trades[i].time)
  }

  /** The daily dictionary: its keys in first-occurrence order, and the
      tally under each key. */
  datatype Grouping = Grouping(days: seq<int>, stats: map<int, DayStats>)

  /** The grouping after the fills of `trades`: a fill on a day not yet seen
      appends the day and starts it from an empty tally. */
  function Group(trades: seq<Trade>): Grouping
  {
    if |trades| == 0 then Grouping([], map[])
    else
      var g := Group(trades[..|trades| - 1]);
      var t := trades[|trades| - 1];
      var day := DayOf(t.time);
      if day in g.stats then Grouping(g.days, g.stats[day := AddTrade(g.stats[day], t)])
      else Grouping(g.days + [day], g.stats[day := AddTrade(EmptyDay, t)])
  }

  /** The grouping loop: a missing day is created empty, then the fill's
      counters and sums are bumped one field at a time. */
  method GroupByDay(trades: seq<Trade>) returns (days: seq<int>, stats: map<int, DayStats>)
    ensures Grouping(days, stats) == Group(trades)
  {
    days, stats := [], map[];
    for i := 0 to |trades|
      invariant Grouping(days, stats) == Group(trades[..i])
    {
      assert trades[..i + 1][..i] == trades[..i];
      var trade := trades[i];
      var date := DayOf(trade.time);
      if date !in stats {
        days := days + [date];
        stats := stats[date := EmptyDay];
      }
      stats := stats[date := stats[date].(trades := stats[date].trades + 1)];
      stats := stats[date := stats[date].(volume := stats[date].volume + trade.qty)];
      stats := stats[date := stats[date].(value := stats[date].value + trade.quoteQty)];
      stats := stats[date := stats[date].(fees := stats[date].fees + trade.commission)];
      if trade.isBuyer {
        stats := stats[date := stats[date].(buyTrades := stats[date].buyTrades + 1)];
      } else {
        stats := stats[date := stats[date].(sellTrades := stats[date].sellTrades + 1)];
      }
    }
    assert trades[..|trades|] == trades;
  }

  /** A fill adds its day to the days traded. */
  lemma DaysTradedSnoc(trades: seq<Trade>)
    requires |trades| > 0
    ensures DaysTraded(trades) == DaysTraded(trades[..|trades| - 1]) + {DayOf(trades[|trades| - 1].time)}
  {
    var init := trades[..|trades| - 1];
    forall d | d in DaysTraded(trades) ensures d in DaysTraded(init) + {DayOf(trades[|trades| - 1].time)} {
      var i :| 0 <= i < |trades| && DayOf(trades[i].time) == d;
      if i < |init| {
        assert init[i] == trades[i];
      }
    }
    forall d | d in DaysTraded(init) ensures d in DaysTraded(trades) {
      var i :| 0 <= i < |init| && DayOf(init[i].time) == d;
      assert trades[i] == init[i];
    }
  }

  /** The dictionary's keys are exactly the listed days, and they are
      exactly the days traded. */
  lemma {:induction false} GroupKeys(trades: seq<Trade>)
    ensures forall d :: d in Group(trades).stats <==> d in Group(trades).days
    ensures Group(trades).stats.Keys == DaysTraded(trades)
  {
    if |trades| > 0 {
      GroupKeys(trades[..|trades| - 1]);
      DaysTradedSnoc(trades);
    }
  }

  /** Each day is listed once, so the number of trading days is the number
      of distinct day keys. */
  lemma {:induction false} GroupDaysDistinct(trades: seq<Trade>)
    ensures Ordering.NoDuplicates(Group(trades).days)
    ensures |Group(trades).days| == |Group(trades).stats.Keys|
  {
    if |trades| > 0 {
      var init := trades[..|trades| - 1];
      var day := DayOf(trades[|trades| - 1].time);
      var g := Group(init);
      GroupDaysDistinct(init);
      GroupKeys(init);
      if day !in g.stats {
        assert day !in g.days;
        assert |g.stats.Keys + {day}| == |g.stats.Keys| + 1;
      }
    }
  }

  /** Each day's entry is the tally of exactly the fills on that day, so
      the dictionary agrees with grouping by filtering. */
  lemma {:induction false} GroupIsFilter(trades: seq<Trade>)
    ensures forall d :: d in Group(trades).stats ==> Group(trades).stats[d] == DayTally(OnDay(trades, d))
    ensures forall d :: d !in Group(trades).stats ==> OnDay(trades, d) == []
  {
    if |trades| > 0 {
      var init := trades[..|trades| - 1];
      var t := trades[|trades| - 1];
      GroupIsFilter(init);
      var g := Group(init);
      var day := DayOf(t.time);
      var before := OnDay(init, day);
      assert OnDay(trades, day) == before + [t];
      assert (before + [t])[..|before|] == before;
      assert DayTally(before + [t]) == AddTrade(DayTally(before), t);
      forall d | d != day
        ensures OnDay(trades, d) == OnDay(init, d)
      {
      }
    }
  }

  /** For every day, its buys and sells add up to its fill count. */
  lemma DailyBuysAndSells(trades: seq<Trade>, d: int)
    requires d in Group(trades).stats
    ensures Group(trades).stats[d].buyTrades + Group(trades).stats[d].sellTrades == Group(trades).stats[d].trades
    ensures Group(trades).stats[d].trades == |OnDay(trades, d)| > 0
  {
    GroupIsFilter(trades);
    DayTallyTotals(OnDay(trades, d));
  }

  /** The fill counts of the listed days, added up. */
  function DayCounts(days: seq<int>, stats: map<int, DayStats>): nat
    requires forall d :: d in days ==> d in stats
  {
    if |days| == 0 then 0
    else
      var last := days[|days| - 1];
      assert last in days;
      DayCounts(days[..|days| - 1], stats) + stats[last].trades
  }

  /** The counts depend only on the entries of the listed days. */
  lemma {:induction false} DayCountsFrame(days: seq<int>, s1: map<int, DayStats>, s2: map<int, DayStats>)
    requires forall d :: d in days ==> d in s1 && d in s2 && s1[d].trades == s2[d].trades
    ensures DayCounts(days, s1) == DayCounts(days, s2)
  {
    if |days| > 0 {
      var last := days[|days| - 1];
      assert last in days;
      DayCountsFrame(days[..|days| - 1], s1, s2);
    }
  }

  /** Replacing the entry of a day listed once changes the total by the
      difference of the two counts. */
  lemma {:induction false} DayCountsUpdate(days: seq<int>, stats: map<int, DayStats>, day: int, v: DayStats)
    requires forall d :: d in days ==> d in stats
    requires Ordering.NoDuplicates(days) && day in days
    ensures DayCounts(days, stats[day := v]) + stats[day].trades == DayCounts(days, stats) + v.trades
  {
    var init := days[..|days| - 1];
    var last := days[|days| - 1];
    if last == day {
      assert day !in init;
      DayCountsFrame(init, stats, stats[day := v]);
    } else {
      assert day in init;
      DayCountsUpdate(init, stats, day, v);
    }
  }

  /** The daily fill counts add up to the number of fills. */
  lemma {:induction false} DailyCountsSumToTotal(trades: seq<Trade>)
    ensures forall d :: d in Group(trades).days ==> d in Group(trades).stats
    ensures DayCounts(Group(trades).days, Group(trades).stats) == |trades|
  {
    GroupKeys(trades);
    GroupDaysDistinct(trades);
    if |trades| > 0 {
      var init := trades[..|trades| - 1];
      var t := trades[|trades| - 1];
      var g := Group(init);
      var day := DayOf(t.time);
      DailyCountsSumToTotal(init);
      GroupKeys(init);
      GroupDaysDistinct(init);
      if day in g.stats {
        DayCountsUpdate(g.days, g.stats, day, AddTrade(g.stats[day], t));
      } else {
        var days := g.days + [day];
        assert days[..|days| - 1] == g.days;
        DayCountsFrame(g.days, g.stats, g.stats[day := AddTrade(EmptyDay, t)]);
      }
    }
  }

  /** The month's summary for one symbol. */
  datatype MonthlySummary = MonthlySummary(totalTrades: nat, totalVolume: real, totalValue: real, totalFees: real,
                                           avgTradeSize: real, tradingDays: nat)

  function MonthlySummaryOf(trades: seq<Trade>): (r: MonthlySummary)
    ensures r.totalTrades == |trades|
    ensures r.totalVolume == Total(trades, Qty) && r.totalValue == Total(trades, QuoteQty)
    ensures r.totalFees == Total(trades, Commission)
    ensures r.totalTrades == 0 ==> r.avgTradeSize == 0.0
    ensures r.totalTrades > 0 ==> r.avgTradeSize * r.totalTrades as real == r.totalVolume
    ensures r.tradingDays == |DaysTraded(trades)| <= r.totalTrades
    ensures r.totalTrades > 0 ==> r.tradingDays > 0
  {
    var s := Summarize(trades);
    TradingDays(trades);
    MonthlySummary(s.totalTrades, s.totalVolume, s.totalQuoteVolume, s.totalCommission, s.avgTradeSize,
                   |Group(trades).days|)
  }

  /** The number of listed days is the number of days traded: never more
      than the fills, and at least one when there is a fill. */
  lemma TradingDays(trades: seq<Trade>)
    ensures |Group(trades).days| == |DaysTraded(trades)| <= |trades|
    ensures |trades| > 0 ==> |Group(trades).days| > 0
  {
    GroupKeys(trades);
    GroupDaysDistinct(trades);
    DaysTradedBound(trades);
  }

  /** There are never more trading days than fills, and at least one when
      anything was traded. */
  lemma {:induction false} DaysTradedBound(trades: seq<Trade>)
    ensures |DaysTraded(trades)| <= |trades|
    ensures |trades| > 0 ==> |DaysTraded(trades)| > 0
  {
    if |trades| > 0 {
      DaysTradedBound(trades[..|trades| - 1]);
      DaysTradedSnoc(trades);
    }
  }
}
