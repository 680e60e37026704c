/** The per-symbol fold of `ReportingTools.getProfitLossSummary`: walks the
    fills in order, adding up volume and fees, keeping the open position, a
    cost total and the average cost derived from it, and scoring every sale
    as a win or a loss by the profit it realises against that average. */
module ProfitLoss {
  import opened Series
  import opened Trades

  datatype Tally = Tally(realizedPnL: real, totalVolume: real, totalFees: real,
                         winningTrades: nat, losingTrades: nat,
                         position: real, avgCost: real, totalCost: real)

  const Start := Tally(0.0, 0.0, 0.0, 0, 0, 0.0, 0.0, 0.0)

  /** The profit a sale of `t` realises against the average cost held in
      `s`. */
  function SalePnL(s: Tally, t: Trade): real
  {
    (t.price - s.avgCost) * t.qty
  }

  /** One fill as the source processes it. A buy adds its cost to
      `totalCost` and re-derives `avgCost` from the open position; a sale
      realises `(price - avgCost) * qty` and leaves `totalCost` as it is. */
  function Step(s: Tally, t: Trade): Tally
  {
    var pnl := SalePnL(s, t);
    var u := s.(totalVolume := s.totalVolume + t.qty, totalFees := s.totalFees + t.commission);
    if t.isBuyer then
      var position := u.position + t.qty;
      var totalCost := u.totalCost + t.qty * t.price;
      u.(position := position, totalCost := totalCost,
         avgCost := if position > 0.0 then totalCost / position else 0.0)
    else
      u.(realizedPnL := u.realizedPnL + pnl, position := u.position - t.qty,
         winningTrades := if pnl > 0.0 then u.winningTrades + 1 else u.winningTrades,
         losingTrades := if pnl < 0.0 then u.losingTrades + 1 else u.losingTrades)
  }

  function Fold(trades: seq<Trade>): Tally
  {
    if |trades| == 0 then Start
    else Step(Fold(trades[..|trades| - 1]), trades[|trades| - 1])
  }

  /** The body of the summary's loop: the updates one fill makes. */
  method ApplyFill(s: Tally, trade: Trade) returns (next: Tally)
    ensures next == Step(s, trade)
  {
    var realizedPnL, totalVolume, totalFees := s.realizedPnL, s.totalVolume, s.totalFees;
    var winningTrades, losingTrades := s.winningTrades, s.losingTrades;
    var position, avgCost, totalCost := s.position, s.avgCost, s.totalCost;
    var qty := trade.qty;
    var price := trade.price;
    var fee := trade.commission;
    totalVolume := totalVolume + qty;
    totalFees := totalFees + fee;
    if trade.isBuyer {
      position := position + qty;
      totalCost := totalCost + qty * price;
      avgCost := if position > 0.0 then totalCost / position else 0.0;
    } else {
      var pnl := (price - avgCost) * qty;
      realizedPnL := realizedPnL + pnl;
      position := position - qty;
      if pnl > 0.0 {
        winningTrades := winningTrades + 1;
      } else if pnl < 0.0 {
        losingTrades := losingTrades + 1;
      }
    }
    next := Tally(realizedPnL, totalVolume, totalFees, winningTrades, losingTrades, position, avgCost, totalCost);
  }

  /** The summary's loop over the fills of one symbol, starting from zero. */
  method AccumulateProfitLoss(trades: seq<Trade>) returns (s: Tally)
    ensures s == Fold(trades)
  {
    s := Start;
    for i := 0 to |trades|
      invariant s == Fold(trades[..i])
    {
      assert trades[..i + 1][..i] == trades[..i];
      s := ApplyFill(s, trades[i]);
    }
    assert trades[..|trades|] == trades;
  }

  /** Volume and fees add up over every fill, buys and sells alike; the cost
      total adds up over the buys only; the position is bought minus sold. */
  lemma {:induction false} TallyTotals(trades: seq<Trade>)
    ensures Fold(trades).totalVolume == Total(trades, Qty)
    ensures Fold(trades).totalFees == Total(trades, Commission)
    ensures Fold(trades).totalCost == Total(Buys(trades), Cost)
    ensures Fold(trades).position == Total(Buys(trades), Qty) - Total(Sells(trades), Qty)
  {
    if |trades| > 0 {
      var init := trades[..|trades| - 1];
      var last := trades[|trades| - 1];
      TallyTotals(init);
      assert init + [last] == trades;
      TotalSnoc(init, last, Qty);
      TotalSnoc(init, last, Commission);
      if last.isBuyer {
        assert Buys(trades) == Buys(init) + [last];
        assert Sells(trades) == Sells(init);
        TotalSnoc(Buys(init), last, Qty);
        TotalSnoc(Buys(init), last, Cost);
      } else {
        assert Sells(trades) == Sells(init) + [last];
        assert Buys(trades) == Buys(init);
        TotalSnoc(Sells(init), last, Qty);
      }
    }
  }

  /** The number of sales that realise a profit. */
  function Wins(trades: seq<Trade>): nat
  {
    if |trades| == 0 then 0
    else
      var before := trades[..|trades| - 1];
      var t := trades[|trades| - 1];
      Wins(before) + if !t.isBuyer && SalePnL(Fold(before), t) > 0.0 then 1 else 0
  }

  /** The number of sales that realise a loss. */
  function Losses(trades: seq<Trade>): nat
  {
    if |trades| == 0 then 0
    else
      var before := trades[..|trades| - 1];
      var t := trades[|trades| - 1];
      Losses(before) + if !t.isBuyer && SalePnL(Fold(before), t) < 0.0 then 1 else 0
  }

  /** The counters count exactly the profitable and the losing sales, so a
      sale that realises exactly nothing is neither a win nor a loss. */
  lemma {:induction false} WinsAndLossesCounted(trades: seq<Trade>)
    ensures Fold(trades).winningTrades == Wins(trades)
    ensures Fold(trades).losingTrades == Losses(trades)
  {
    if |trades| > 0 {
      var before := trades[..|trades| - 1];
      WinsAndLossesCounted(before);
    }
  }

  /** Only sales are scored, each at most once: as a win when it realises a
      profit, as a loss when it realises a loss, and not at all when it
      realises exactly nothing. */
  lemma {:induction false} WinsAndLossesAreSales(trades: seq<Trade>)
    ensures Fold(trades).winningTrades == Wins(trades)
    ensures Fold(trades).losingTrades == Losses(trades)
    ensures Fold(trades).winningTrades + Fold(trades).losingTrades <= |Sells(trades)|
    ensures |Sells(trades)| == 0 ==> Fold(trades).realizedPnL == 0.0
  {
    WinsAndLossesCounted(trades);
    if |trades| > 0 {
      var init := trades[..|trades| - 1];
      WinsAndLossesAreSales(init);
    }
  }

  /** The share of scored sales that were wins, in percent; 0 when no sale
      was scored. */
  function WinRate(winning: nat, losing: nat): (r: real)
    ensures winning + losing == 0 ==> r == 0.0
    ensures winning + losing > 0 ==> 0.0 <= r <= 100.0 && r * (winning + losing) as real == winning as real * 100.0
  {
    if winning + losing > 0 then
      var n := (winning + losing) as real;
      var share := winning as real / n;
      assert share * n == winning as real;
      assert share <= 1.0;
      share * 100.0
    else 0.0
  }

  /** The figures the summary prints for one symbol. The current market
      price is a parameter; the source asks the exchange for it only when
      the position is long. */
  datatype PnlSummary = PnlSummary(realizedPnL: real, unrealizedPnL: real, totalPnL: real, totalVolume: real,
                                   totalFees: real, trades: nat, winningTrades: nat, losingTrades: nat,
                                   winRate: real, currentPosition: real, avgCost: real)

  function SummaryOf(trades: seq<Trade>, currentPrice: real): (r: PnlSummary)
    ensures r.trades == |trades|
    ensures r.winningTrades + r.losingTrades <= |Sells(trades)|
    ensures r.totalVolume == Total(trades, Qty) && r.totalFees == Total(trades, Commission)
    ensures r.currentPosition <= 0.0 ==> r.unrealizedPnL == 0.0
    ensures 0.0 <= r.winRate <= 100.0
  {
    var s := Fold(trades);
    TallyTotals(trades);
    WinsAndLossesAreSales(trades);
    var unrealized := if s.position > 0.0 then (currentPrice - s.avgCost) * s.position else 0.0;
    PnlSummary(s.realizedPnL, unrealized, s.realizedPnL + unrealized, s.totalVolume, s.totalFees, |trades|,
            s.winningTrades, s.losingTrades, WinRate(s.winningTrades, s.losingTrades), s.position, s.avgCost)
  }

  /** A buy, a sale, a buy and a sale of one unit each, all at the same
      price `p` (10, say): the second buy divides the cost of both buys by
      the one unit held, the average cost doubles to `2 * p`, and the second
      sale is booked as a loss of `p` although the market never moved. */
  lemma FlatMarketBooksLoss(p: real)
    requires p > 0.0
    ensures var trades := [Trade(0, 1.0, p, p, 0.0, true), Trade(1, 1.0, p, p, 0.0, false),
                           Trade(2, 1.0, p, p, 0.0, true), Trade(3, 1.0, p, p, 0.0, false)];
      Fold(trades).avgCost == 2.0 * p && Fold(trades).realizedPnL == -p &&
      Fold(trades).winningTrades == 0 && Fold(trades).losingTrades == 1
  {
    var b0 := Trade(0, 1.0, p, p, 0.0, true);
    var s1 := Trade(1, 1.0, p, p, 0.0, false);
    var b2 := Trade(2, 1.0, p, p, 0.0, true);
    var s3 := Trade(3, 1.0, p, p, 0.0, false);
    var t0: seq<Trade> := [];
    assert Fold(t0) == Start;
    assert [b0][..0] == t0;
    var t1 := Tally(0.0, 1.0, 0.0, 0, 0, 1.0, p, p);
    assert Step(Start, b0) == t1;
    assert Fold([b0]) == t1;
    var t2 := Tally(0.0, 2.0, 0.0, 0, 0, 0.0, p, p);
    assert SalePnL(t1, s1) == 0.0;
    assert Step(t1, s1) == t2;
    assert [b0, s1][..1] == [b0];
    assert Fold([b0, s1]) == t2;
    var t3 := Tally(0.0, 3.0, 0.0, 0, 0, 1.0, 2.0 * p, 2.0 * p);
    assert Step(t2, b2) == t3;
    assert [b0, s1, b2][..2] == [b0, s1];
    assert Fold([b0, s1, b2]) == t3;
    var t4 := Tally(-p, 4.0, 0.0, 0, 1, 0.0, 2.0 * p, 2.0 * p);
    assert SalePnL(t3, s3) == -p;
    assert Step(t3, s3) == t4;
    assert [b0, s1, b2, s3][..3] == [b0, s1, b2];
    assert Fold([b0, s1, b2, s3]) == t4;
  }

  /** The intended update: a sale also removes the cost of the units sold
      at the average cost, so `totalCost` stays the cost of the units
      held and the average cost is unchanged by sales. */
  function CorrectedStep(s: Tally, t: Trade): Tally
  {
    if t.isBuyer then Step(s, t)
    else Step(s, t).(totalCost := s.totalCost - s.avgCost * t.qty)
  }

  function CorrectedFold(trades: seq<Trade>): Tally
  {
    if |trades| == 0 then Start
    else CorrectedStep(CorrectedFold(trades[..|trades| - 1]), trades[|trades| - 1])
  }

  /** Every sale is covered by the position held before it. */
  ghost predicate Covered(trades: seq<Trade>)
  {
    forall k :: 0 <= k < |trades| && !trades[k].isBuyer ==> trades[k].qty <= CorrectedFold(trades[..k]).position
  }

  /** The state a flat market at `price` keeps: the cost total is the
      position valued at that price and a long position is averaged at it. */
  ghost predicate FlatState(s: Tally, price: real)
  {
    s.position >= 0.0 && s.totalCost == price * s.position && (s.position > 0.0 ==> s.avgCost == price)
      && s.realizedPnL == 0.0 && s.winningTrades == 0 && s.losingTrades == 0
  }

  lemma QuotientOfProduct(p: real, y: real)
    requires y > 0.0
    ensures p * y / y == p
  {
  }

  /** One covered fill at the market price keeps the flat-market state. */
  lemma FlatStep(s: Tally, t: Trade, price: real)
    requires FlatState(s, price)
    requires t.qty > 0.0 && t.price == price
    requires !t.isBuyer ==> t.qty <= s.position
    ensures FlatState(CorrectedStep(s, t), price)
  {
    if t.isBuyer {
      FlatBuy(s, t, price);
    } else {
      FlatSale(s, t, price);
    }
  }

  /** A buy at the market price keeps the cost total at the position's value
      and re-averages the cost at that price. */
  lemma FlatBuy(s: Tally, t: Trade, price: real)
    requires FlatState(s, price)
    requires t.qty > 0.0 && t.price == price && t.isBuyer
    ensures FlatState(CorrectedStep(s, t), price)
  {
    var n := CorrectedStep(s, t);
    assert n == Step(s, t);
    assert n.position == s.position + t.qty > 0.0;
    assert n.totalCost == price * s.position + t.qty * price == price * n.position;
    assert n.avgCost == n.totalCost / n.position;
    QuotientOfProduct(price, n.position);
    assert n.realizedPnL == s.realizedPnL && n.winningTrades == s.winningTrades && n.losingTrades == s.losingTrades;
  }

  /** A covered sale at the market price realises nothing and removes the
      units' value from the cost total. */
  lemma FlatSale(s: Tally, t: Trade, price: real)
    requires FlatState(s, price)
    requires t.qty > 0.0 && t.price == price && !t.isBuyer && t.qty <= s.position
    ensures FlatState(CorrectedStep(s, t), price)
  {
    var n := CorrectedStep(s, t);
    assert s.avgCost == price;
    assert SalePnL(s, t) == 0.0;
    assert n.realizedPnL == s.realizedPnL + SalePnL(s, t);
    assert n.totalCost == price * s.position - price * t.qty;
  }

  /** With the correction, a market that never moves realises nothing and
      scores no sale as a win or a loss, as long as no sale exceeds the
      position held. */
  lemma {:induction false} CorrectedFlatMarketRealizesNothing(trades: seq<Trade>, price: real)
    requires forall i :: 0 <= i < |trades| ==> trades[i].qty > 0.0 && trades[i].price == price
    requires Covered(trades)
    ensures FlatState(CorrectedFold(trades), price)
    ensures CorrectedFold(trades).realizedPnL == 0.0
    ensures CorrectedFold(trades).winningTrades == 0 && CorrectedFold(trades).losingTrades == 0
  {
    if |trades| > 0 {
      var init := trades[..|trades| - 1];
      forall k | 0 <= k < |init| && !init[k].isBuyer
        ensures init[k].qty <= CorrectedFold(init[..k]).position
      {
        assert init[..k] == trades[..k];
      }
      CorrectedFlatMarketRealizesNothing(init, price);
      assert trades[..|trades| - 1] == init;
      FlatStep(CorrectedFold(init), trades[|trades| - 1], price);
    }
  }
}
