/** The per-symbol fold of `ReportingTools.generatePerformanceReport`: walks
    the fills in order, keeping the bought and sold volume and value, the
    open position, the running average buy price, and the profit realised by
    each sale against that average. */
module Performance {
  import opened Series
  import opened Trades

  /** The running totals after some prefix of the fills. */
  datatype Position = Position(realizedPnL: real, totalBuyVolume: real, totalSellVolume: real,
                               totalBuyValue: real, totalSellValue: real, position: real, avgBuyPrice: real)

  const Start := Position(0.0, 0.0, 0.0, 0.0, 0.0, 0.0, 0.0)

  /** Exchange fills have positive quantities; the model needs it of the
      buys, whose volume divides the bought value. */
  ghost predicate PositiveBuys(trades: seq<Trade>)
  {
    forall i :: 0 <= i < |trades| && trades[i].isBuyer ==> trades[i].qty > 0.0
  }

  /** One fill: a buy adds to volume, value and position and re-averages the
      buy price over everything bought so far; a sell adds to the sold side,
      reduces the position and realises `(price - avgBuyPrice) * qty`. */
  function Step(p: Position, t: Trade): Position
    requires t.isBuyer ==> p.totalBuyVolume + t.qty > 0.0
  {
    var value := t.qty * t.price;
    if t.isBuyer then
      var volume := p.totalBuyVolume + t.qty;
      var bought := p.totalBuyValue + value;
      p.(totalBuyVolume := volume, totalBuyValue := bought, position := p.position + t.qty,
         avgBuyPrice := bought / volume)
    else
      p.(totalSellVolume := p.totalSellVolume + t.qty, totalSellValue := p.totalSellValue + value,
         position := p.position - t.qty, realizedPnL := p.realizedPnL + (t.price - p.avgBuyPrice) * t.qty)
  }

  /** The totals after all of `trades`. */
  function Fold(trades: seq<Trade>): (p: Position)
    requires PositiveBuys(trades)
    ensures p.totalBuyVolume >= 0.0
  {
    if |trades| == 0 then Start
    else Step(Fold(trades[..|trades| - 1]), trades[|trades| - 1])
  }

  /** Folding one more fill is one more step. */
  lemma FoldSnoc(trades: seq<Trade>, i: nat)
    requires PositiveBuys(trades) && i < |trades|
    ensures PositiveBuys(trades[..i]) && PositiveBuys(trades[..i + 1])
    ensures trades[i].isBuyer ==> Fold(trades[..i]).totalBuyVolume + trades[i].qty > 0.0
    ensures Fold(trades[..i + 1]) == Step(Fold(trades[..i]), trades[i])
  {
    assert trades[..i + 1][..i] == trades[..i];
  }

  /** The body of the report's loop: the updates one fill makes. */
  method ApplyFill(p: Position, trade: Trade) returns (next: Position)
    requires trade.isBuyer ==> p.totalBuyVolume + trade.qty > 0.0
    ensures next == Step(p, trade)
  {
    var realizedPnL, totalBuyVolume, totalSellVolume := p.realizedPnL, p.totalBuyVolume, p.totalSellVolume;
    var totalBuyValue, totalSellValue := p.totalBuyValue, p.totalSellValue;
    var position, avgBuyPrice := p.position, p.avgBuyPrice;
    var qty := trade.qty;
    var price := trade.price;
    var value := qty * price;
    if trade.isBuyer {
      totalBuyVolume := totalBuyVolume + qty;
      totalBuyValue := totalBuyValue + value;
      position := position + qty;
      avgBuyPrice := totalBuyValue / totalBuyVolume;
    } else {
      totalSellVolume := totalSellVolume + qty;
      totalSellValue := totalSellValue + value;
      position := position - qty;
      realizedPnL := realizedPnL + (price - avgBuyPrice) * qty;
    }
    next := Position(realizedPnL, totalBuyVolume, totalSellVolume, totalBuyValue, totalSellValue, position, avgBuyPrice);
  }

  /** The report's loop over the fills of one symbol, starting from zero. */
  method AccumulatePerformance(trades: seq<Trade>) returns (p: Position)
    requires PositiveBuys(trades)
    ensures p == Fold(trades)
  {
    p := Start;
    for i := 0 to |trades|
      invariant p == Fold(trades[..i])
    {
      FoldSnoc(trades, i);
      p := ApplyFill(p, trades[i]);
    }
    assert trades[..|trades|] == trades;
  }

  /** Conservation: the bought and sold totals are the sums over the buy and
      sell fills, and the open position is what was bought minus what was
      sold. */
  lemma {:induction false} PositionBalance(trades: seq<Trade>)
    requires PositiveBuys(trades)
    ensures Fold(trades).totalBuyVolume == Total(Buys(trades), Qty)
    ensures Fold(trades).totalSellVolume == Total(Sells(trades), Qty)
    ensures Fold(trades).totalBuyValue == Total(Buys(trades), Cost)
    ensures Fold(trades).totalSellValue == Total(Sells(trades), Cost)
    ensures Fold(trades).position == Fold(trades).totalBuyVolume - Fold(trades).totalSellVolume
  {
    if |trades| > 0 {
      var init := trades[..|trades| - 1];
      var last := trades[|trades| - 1];
      PositionBalance(init);
      if last.isBuyer {
        assert Buys(trades) == Buys(init) + [last];
        assert Sells(trades) == Sells(init);
        TotalSnoc(Buys(init), last, Qty);
        TotalSnoc(Buys(init), last, Cost);
      } else {
        assert Sells(trades) == Sells(init) + [last];
        assert Buys(trades) == Buys(init);
        TotalSnoc(Sells(init), last, Qty);
        TotalSnoc(Sells(init), last, Cost);
      }
    }
  }

  /** The average buy price is 0 until the first buy and afterwards the
      volume-weighted mean price of all buys. */
  lemma {:induction false} AvgBuyPriceIsMean(trades: seq<Trade>)
    requires PositiveBuys(trades)
    ensures |Buys(trades)| == 0 ==> Fold(trades).avgBuyPrice == 0.0
    ensures |Buys(trades)| > 0 ==>
      Fold(trades).totalBuyVolume > 0.0 &&
      Fold(trades).avgBuyPrice == Fold(trades).totalBuyValue / Fold(trades).totalBuyVolume
  {
    if |trades| > 0 {
      var init := trades[..|trades| - 1];
      var last := trades[|trades| - 1];
      AvgBuyPriceIsMean(init);
      if last.isBuyer {
        assert Buys(trades) == Buys(init) + [last];
      } else {
        assert Buys(trades) == Buys(init);
      }
    }
  }

  /** Without a sale nothing is realised. */
  lemma {:induction false} NoSellsNoRealizedPnL(trades: seq<Trade>)
    requires PositiveBuys(trades)
    requires |Sells(trades)| == 0
    ensures Fold(trades).realizedPnL == 0.0
  {
    if |trades| > 0 {
      NoSellsNoRealizedPnL(trades[..|trades| - 1]);
    }
  }

  /** When every buy is priced within `[lo, hi]`, so is the average buy
      price once something has been bought. */
  lemma AvgBuyPriceWithin(trades: seq<Trade>, lo: real, hi: real)
    requires PositiveBuys(trades)
    requires forall i :: 0 <= i < |trades| && trades[i].isBuyer ==> lo <= trades[i].price <= hi
    ensures |Buys(trades)| > 0 ==> lo <= Fold(trades).avgBuyPrice <= hi
  {
    PositionBalance(trades);
    AvgBuyPriceIsMean(trades);
    BuyMeanPriceWithin(trades, lo, hi);
  }

  /** In a market that never moves, the average buy price is the market
      price as soon as something has been bought. */
  lemma FlatMarketAvgBuyPrice(trades: seq<Trade>, price: real)
    requires PositiveBuys(trades)
    requires forall i :: 0 <= i < |trades| ==> trades[i].price == price
    ensures |Buys(trades)| > 0 ==> Fold(trades).avgBuyPrice == price
  {
    AvgBuyPriceWithin(trades, price, price);
  }

  /** In a market that never moves, with a buy first, no sale realises a
      profit or a loss. */
  lemma {:induction false} FlatMarketRealizesNothing(trades: seq<Trade>, price: real)
    requires PositiveBuys(trades)
    requires |trades| > 0 && trades[0].isBuyer
    requires forall i :: 0 <= i < |trades| ==> trades[i].price == price
    ensures |Buys(trades)| > 0
    ensures Fold(trades).realizedPnL == 0.0
  {
    assert trades[0] in Buys(trades);
    if |trades| > 1 {
      var init := trades[..|trades| - 1];
      var last := trades[|trades| - 1];
      assert PositiveBuys(init);
      FlatMarketRealizesNothing(init, price);
      FlatMarketAvgBuyPrice(init, price);
      FlatStepRealizesNothing(Fold(init), last, price);
    } else {
      assert trades[..0] == [];
    }
  }

  /** A fill at the price every earlier buy was made at realises nothing. */
  lemma FlatStepRealizesNothing(p: Position, t: Trade, price: real)
    requires p.realizedPnL == 0.0 && p.avgBuyPrice == price && t.price == price
    requires t.isBuyer ==> p.totalBuyVolume + t.qty > 0.0
    ensures Step(p, t).realizedPnL == 0.0
  {
    if !t.isBuyer {
      assert (t.price - p.avgBuyPrice) * t.qty == 0.0;
    }
  }

  /** Return on the bought value, in percent; 0 when nothing was invested. */
  function Roi(totalPnL: real, totalInvested: real): (r: real)
    ensures totalInvested <= 0.0 ==> r == 0.0
    ensures totalInvested > 0.0 ==> r * totalInvested == totalPnL * 100.0
    ensures totalInvested > 0.0 ==> (r > 0.0 <==> totalPnL > 0.0) && (r < 0.0 <==> totalPnL < 0.0)
  {
    if totalInvested > 0.0 then
      var r := totalPnL / totalInvested * 100.0;
      assert totalPnL / totalInvested * totalInvested == totalPnL;
      r
    else 0.0
  }

  /** The figures the report prints for one symbol. The current market price
      is a parameter; the source asks the exchange for it only when the
      position is long and unrealised profit is requested. */
  datatype Report = Report(realizedPnL: real, unrealizedPnL: real, totalPnL: real, roi: real, totalInvested: real,
                           totalTrades: nat, buyTrades: nat, sellTrades: nat,
                           totalBuyVolume: real, totalSellVolume: real, avgBuyPrice: real, currentPosition: real)

  function PerformanceOf(trades: seq<Trade>, includeUnrealized: bool, currentPrice: real): (r: Report)
    requires PositiveBuys(trades)
    ensures r.buyTrades + r.sellTrades == r.totalTrades == |trades|
    ensures r.currentPosition == Total(Buys(trades), Qty) - Total(Sells(trades), Qty)
    ensures r.totalInvested == Total(Buys(trades), Cost)
    ensures !(includeUnrealized && r.currentPosition > 0.0) ==> r.unrealizedPnL == 0.0
    ensures r.totalInvested <= 0.0 ==> r.roi == 0.0
  {
    var p := Fold(trades);
    PositionBalance(trades);
    BuySellCount(trades);
    var unrealized := if includeUnrealized && p.position > 0.0 then (currentPrice - p.avgBuyPrice) * p.position else 0.0;
    var totalPnL := p.realizedPnL + unrealized;
    Report(p.realizedPnL, unrealized, totalPnL, Roi(totalPnL, p.totalBuyValue), p.totalBuyValue,
           |trades|, |Buys(trades)|, |Sells(trades)|,
           p.totalBuyVolume, p.totalSellVolume, p.avgBuyPrice, p.position)
  }
}
