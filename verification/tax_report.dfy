/** `ReportingTools.exportTaxReport`: every fill of every requested symbol
    becomes a tax event; the events are sorted by date in place and then
    summed into buy value, sell value, fees and the net gain or loss. */
module TaxReport {
  import opened Series
  import opened Trades

  /** One event: its calendar-day key, BUY or SELL, the symbol, and the
      fill's quantity, price, quote value and fee. */
  datatype TaxEvent = TaxEvent(date: int, isBuy: bool, symbol: string, quantity: real, price: real,
                               value: real, fee: real)

  function EventOf(symbol: string, t: Trade): (e: TaxEvent)
    ensures e.isBuy == t.isBuyer && e.value == t.quoteQty && e.fee == t.commission
  {
    TaxEvent(DayOf(t.time), t.isBuyer, symbol, t.qty, t.price, t.quoteQty, t.commission)
  }

  /** The fills of one symbol, as events. */
  function SymbolEvents(symbol: string, trades: seq<Trade>): (r: seq<TaxEvent>)
    ensures |r| == |trades|
    ensures forall i :: 0 <= i < |r| ==> r[i] == EventOf(symbol, trades[i])
  {
    seq(|trades|, i requires 0 <= i < |trades| => EventOf(symbol, trades[i]))
  }

  /** The events of all symbols, in request order and then fill order. */
  function EventsOf(batches: seq<(string, seq<Trade>)>): seq<TaxEvent>
  {
    if |batches| == 0 then []
    else
      var last := batches[|batches| - 1];
      EventsOf(batches[..|batches| - 1]) + SymbolEvents(last.0, last.1)
  }

  /** The collecting loops: one event pushed per fill. */
  method CollectEvents(batches: seq<(string, seq<Trade>)>) returns (events: seq<TaxEvent>)
    ensures events == EventsOf(batches)
  {
    events := [];
    for b := 0 to |batches|
      invariant events == EventsOf(batches[..b])
    {
      assert batches[..b + 1][..b] == batches[..b];
      var (symbol, trades) := batches[b];
      ghost var start := events;
      for k := 0 to |trades|
        invariant events == start + SymbolEvents(symbol, trades[..k])
      {
        events := events + [EventOf(symbol, trades[k])];
      }
      assert trades[..|trades|] == trades;
    }
    assert batches[..|batches|] == batches;
  }

  ghost predicate SortedByDate(s: seq<TaxEvent>)
  {
    forall k, l :: 0 <= k < l < |s| ==> s[k].date <= s[l].date
  }

  /** The in-place sort by date: an insertion sort that moves each event
      down past the later-dated events before it. */
  method SortByDate(a: array<TaxEvent>)
    modifies a
    ensures SortedByDate(a[..])
    ensures multiset(a[..]) == multiset(old(a[..]))
  {
    for i := 0 to a.Length
      invariant SortedByDate(a[..i])
      invariant multiset(a[..]) == multiset(old(a[..]))
    {
      SinkInto(a, i);
    }
    assert a[..a.Length] == a[..];
  }

  /** One pass of the insertion sort: with `a[..i]` already in date order,
      the event at `i` is swapped down until nothing before it is later. */
  method SinkInto(a: array<TaxEvent>, i: nat)
    modifies a
    requires i < a.Length && SortedByDate(a[..i])
    ensures SortedByDate(a[..i + 1])
    ensures multiset(a[..i + 1]) == multiset(old(a[..i + 1]))
    ensures a[i + 1..] == old(a[i + 1..])
    ensures multiset(a[..]) == multiset(old(a[..]))
  {
    var j := i;
    while j > 0 && a[j - 1].date > a[j].date
      invariant 0 <= j <= i
      invariant Sinking(a[..], i, j)
      invariant multiset(a[..i + 1]) == multiset(old(a[..i + 1]))
      invariant a[i + 1..] == old(a[i + 1..])
    {
      ghost var before := a[..];
      SwapDown(a, j, i);
      SinkStep(before, a[..], i, j);
      j := j - 1;
    }
    SinkDone(a[..], i, j);
    PrefixPermutation(old(a[..]), a[..], i + 1);
  }

  /** The state of a pass that has moved the new event down to `j`: the
      other events of `s[..i + 1]` are in date order and none after `j` is
      earlier than the one at `j`. */
  ghost predicate Sinking(s: seq<TaxEvent>, i: nat, j: nat)
  {
    j <= i < |s| &&
    (forall k, l :: 0 <= k < l <= i && k != j && l != j ==> s[k].date <= s[l].date) &&
    (forall l :: j < l <= i ==> s[j].date <= s[l].date)
  }

  /** Swapping a later event at `j - 1` past the one at `j` moves the pass
      one place down. */
  lemma SinkStep(s: seq<TaxEvent>, t: seq<TaxEvent>, i: nat, j: nat)
    requires Sinking(s, i, j) && 0 < j && s[j - 1].date > s[j].date
    requires t == s[j - 1 := s[j]][j := s[j - 1]]
    ensures Sinking(t, i, j - 1)
  {
  }

  /** A pass that stops, at the front or behind an event no later than the
      new one, leaves the prefix in date order. */
  lemma SinkDone(s: seq<TaxEvent>, i: nat, j: nat)
    requires Sinking(s, i, j) && (j == 0 || s[j - 1].date <= s[j].date)
    ensures SortedByDate(s[..i + 1])
  {
  }

  /** Exchanges the event at `j` with the one before it; both lie in the
      prefix `a[..end + 1]`, which is permuted, and nothing after it moves. */
  method SwapDown(a: array<TaxEvent>, j: nat, end: nat)
    modifies a
    requires 0 < j <= end < a.Length
    ensures a[..] == old(a[..])[j - 1 := old(a[j])][j := old(a[j - 1])]
    ensures multiset(a[..end + 1]) == multiset(old(a[..end + 1]))
    ensures a[end + 1..] == old(a[end + 1..])
  {
    a[j - 1], a[j] := a[j], a[j - 1];
    assert a[..end + 1] == old(a[..end + 1])[j - 1 := old(a[j])][j := old(a[j - 1])];
  }

  /** Permuting a prefix and keeping the rest permutes the whole. */
  lemma PrefixPermutation(x: seq<TaxEvent>, y: seq<TaxEvent>, n: nat)
    requires n <= |x| == |y|
    requires multiset(x[..n]) == multiset(y[..n]) && x[n..] == y[n..]
    ensures multiset(x) == multiset(y)
  {
    assert x == x[..n] + x[n..];
    assert y == y[..n] + y[n..];
  }

  /** The amounts the report adds up. */
  datatype Measure = BuyValue | SellValue | Value | Fee

  function MeasureOf(e: TaxEvent, m: Measure): real
  {
    match m
    case BuyValue => if e.isBuy then e.value else 0.0
    case SellValue => if e.isBuy then 0.0 else e.value
    case Value => e.value
    case Fee => e.fee
  }

  /** The sum of one measure over the events, left to right from 0; for
      `BuyValue` and `SellValue` this is the sum of the values of the BUY
      or SELL events alone. */
  function Tally(events: seq<TaxEvent>, m: Measure): real
  {
    if |events| == 0 then 0.0
    else Tally(events[..|events| - 1], m) + MeasureOf(events[|events| - 1], m)
  }

  lemma {:induction false} TallyAppend(x: seq<TaxEvent>, y: seq<TaxEvent>, m: Measure)
    ensures Tally(x + y, m) == Tally(x, m) + Tally(y, m)
  {
    if |y| > 0 {
      assert (x + y)[..|x + y| - 1] == x + y[..|y| - 1];
      TallyAppend(x, y[..|y| - 1], m);
    } else {
      assert x + y == x;
    }
  }

  /** Every event is a BUY or a SELL, so the two filtered totals add up to
      the total value. */
  lemma {:induction false} BuyAndSellPartitionValue(events: seq<TaxEvent>)
    ensures Tally(events, BuyValue) + Tally(events, SellValue) == Tally(events, Value)
  {
    if |events| > 0 {
      BuyAndSellPartitionValue(events[..|events| - 1]);
    }
  }

  /** Taking one event out of a sequence takes its amount out of the
      total. */
  lemma TallyRemove(b: seq<TaxEvent>, k: nat, m: Measure)
    requires k < |b|
    ensures Tally(b, m) == Tally(b[..k] + b[k + 1..], m) + MeasureOf(b[k], m)
  {
    assert b == (b[..k] + [b[k]]) + b[k + 1..];
    TallyAppend(b[..k] + [b[k]], b[k + 1..], m);
    assert (b[..k] + [b[k]])[..k] == b[..k];
    TallyAppend(b[..k], b[k + 1..], m);
  }

  /** Totals do not depend on the order of the events, so sorting them
      changes no figure of the summary. */
  lemma {:induction false} TallyPermutation(a: seq<TaxEvent>, b: seq<TaxEvent>, m: Measure)
    requires multiset(a) == multiset(b)
    ensures Tally(a, m) == Tally(b, m)
    decreases |a|
  {
    if |a| == 0 {
      assert |multiset(b)| == 0;
    } else {
      var k := MatchLast(a, b);
      var rest := b[..k] + b[k + 1..];
      TallyPermutation(a[..|a| - 1], rest, m);
      TallyRemove(b, k, m);
    }
  }

  /** The last event of `a` sits somewhere in its permutation `b`; without
      it, the rest of `a` is a permutation of the rest of `b`. */
  lemma MatchLast(a: seq<TaxEvent>, b: seq<TaxEvent>) returns (k: nat)
    requires multiset(a) == multiset(b) && |a| > 0
    ensures k < |b| && b[k] == a[|a| - 1]
    ensures multiset(a[..|a| - 1]) == multiset(b[..k] + b[k + 1..])
  {
    var x := a[|a| - 1];
    assert a == a[..|a| - 1] + [x];
    assert x in multiset(b);
    k :| 0 <= k < |b| && b[k] == x;
    MultisetRemove(b, k);
  }

  lemma MultisetRemove(b: seq<TaxEvent>, k: nat)
    requires k < |b|
    ensures multiset(b[..k] + b[k + 1..]) == multiset(b) - multiset{b[k]}
  {
    assert b == b[..k] + [b[k]] + b[k + 1..];
  }

  /** The report's summary figures. */
  datatype TaxSummary = TaxSummary(totalEvents: nat, totalBuyValue: real, totalSellValue: real,
                                   totalFees: real, netGainLoss: real)

  function SummaryOf(events: seq<TaxEvent>): (r: TaxSummary)
    ensures r.totalEvents == |events|
    ensures r.netGainLoss == r.totalSellValue - r.totalBuyValue
    ensures r.totalBuyValue + r.totalSellValue == Tally(events, Value)
  {
    BuyAndSellPartitionValue(events);
    var buys := Tally(events, BuyValue);
    var sells := Tally(events, SellValue);
    TaxSummary(|events|, buys, sells, Tally(events, Fee), sells - buys)
  }

  /** One more fill adds its event's amount to each total. */
  lemma SymbolEventsSnoc(symbol: string, trades: seq<Trade>, m: Measure)
    requires |trades| > 0
    ensures Tally(SymbolEvents(symbol, trades), m) ==
      Tally(SymbolEvents(symbol, trades[..|trades| - 1]), m) + MeasureOf(EventOf(symbol, trades[|trades| - 1]), m)
  {
    var events := SymbolEvents(symbol, trades);
    assert events[..|events| - 1] == SymbolEvents(symbol, trades[..|trades| - 1]);
  }

  /** The events of one symbol total what its buy fills, its sell fills and
      all its fills add up to in quote value and commission. */
  lemma {:induction false} SymbolTotals(symbol: string, trades: seq<Trade>)
    ensures Tally(SymbolEvents(symbol, trades), BuyValue) == Total(Buys(trades), QuoteQty)
    ensures Tally(SymbolEvents(symbol, trades), SellValue) == Total(Sells(trades), QuoteQty)
    ensures Tally(SymbolEvents(symbol, trades), Fee) == Total(trades, Commission)
  {
    if |trades| > 0 {
      var init := trades[..|trades| - 1];
      var last := trades[|trades| - 1];
      SymbolTotals(symbol, init);
      SymbolEventsSnoc(symbol, trades, BuyValue);
      SymbolEventsSnoc(symbol, trades, SellValue);
      SymbolEventsSnoc(symbol, trades, Fee);
      assert init + [last] == trades;
      TotalSnoc(init, last, Commission);
      if last.isBuyer {
        assert Buys(trades) == Buys(init) + [last];
        assert Sells(trades) == Sells(init);
        TotalSnoc(Buys(init), last, QuoteQty);
      } else {
        assert Sells(trades) == Sells(init) + [last];
        assert Buys(trades) == Buys(init);
        TotalSnoc(Sells(init), last, QuoteQty);
      }
    }
  }

  /** The whole report: collect, sort in place, sum up. The summary is the
      one of the events in collection order, and for a single symbol it is
      the buy, sell and commission totals of its fills. */
  method ExportTaxReport(batches: seq<(string, seq<Trade>)>) returns (events: array<TaxEvent>, r: TaxSummary)
    ensures fresh(events)
    ensures SortedByDate(events[..])
    ensures multiset(events[..]) == multiset(EventsOf(batches))
    ensures r == SummaryOf(EventsOf(batches))
    ensures |batches| == 1 ==>
      (r.totalBuyValue == Total(Buys(batches[0].1), QuoteQty) &&
       r.totalSellValue == Total(Sells(batches[0].1), QuoteQty) &&
       r.totalFees == Total(batches[0].1, Commission))
  {
    var collected := CollectEvents(batches);
    events := new TaxEvent[|collected|](i requires 0 <= i < |collected| => collected[i]);
    assert events[..] == collected;
    SortByDate(events);
    r := SummaryOf(events[..]);
    SummaryOfPermutation(events[..], collected);
    if |batches| == 1 {
      SingleSymbolSummary(batches);
    }
  }

  /** Sorting changes no figure of the summary. */
  lemma SummaryOfPermutation(a: seq<TaxEvent>, b: seq<TaxEvent>)
    requires multiset(a) == multiset(b)
    ensures SummaryOf(a) == SummaryOf(b)
  {
    assert |a| == |multiset(a)| == |multiset(b)| == |b|;
    TallyPermutation(a, b, BuyValue);
    TallyPermutation(a, b, SellValue);
    TallyPermutation(a, b, Fee);
  }

  /** For a single symbol the summary totals its buy fills, its sell fills
      and its commissions. */
  lemma SingleSymbolSummary(batches: seq<(string, seq<Trade>)>)
    requires |batches| == 1
    ensures SummaryOf(EventsOf(batches)).totalBuyValue == Total(Buys(batches[0].1), QuoteQty)
    ensures SummaryOf(EventsOf(batches)).totalSellValue == Total(Sells(batches[0].1), QuoteQty)
    ensures SummaryOf(EventsOf(batches)).totalFees == Total(batches[0].1, Commission)
  {
    assert batches[..0] == [];
    assert EventsOf(batches) == SymbolEvents(batches[0].0, batches[0].1);
    SymbolTotals(batches[0].0, batches[0].1);
  }
}
