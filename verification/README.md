# Technical indicators and trade reports, modelled in Dafny

This project models the computational core of a Binance trading assistant. It has two parts.

**The indicator engine, `TechnicalIndicators`.**
- Calculators:
  - simple and exponential moving averages;
  - Wilder-smoothed RSI;
  - MACD, which composes three EMA passes;
  - Bollinger Bands;
  - the support/resistance scan over symmetric windows.
- The label logic of the tool handlers turns the latest value into a signal:
  - RSI, MACD and Bollinger labels;
  - the moving-average trend;
  - the nearest support and resistance.

**The per-trade folds of `ReportingTools`.** Each one is modelled with its network calls removed:
- the trade-history summary;
- the performance report (position, average buy price, realised PnL, ROI);
- the profit-and-loss summary (average cost, win/loss counters, win rate);
- the monthly report's grouping of fills by calendar day;
- the tax report (collecting events, sorting them by date in place, and the buy, sell and fee totals).

## Modelling conventions

- All amounts and prices are Dafny `real`: exact arithmetic, with no IEEE-754 rounding.
- Where the code relies on floating-point division by zero, the model states what the code produces:
  - RSI readings are `Defined(x)` or `NotANumber`.
  - A zero average loss with a positive average gain reads exactly 100, as JavaScript's `100 - 100/(1+Infinity)` does.
  - Zero gain and zero loss give `NaN`.
- `Math.sqrt` is a parameter `sqrt: real -> real`. The only assumptions about it (`Bollinger.RootLike`) are that it is non-negative on non-negative inputs and that it maps 0 to 0.
- A date key is the UTC calendar day of the trade time, `time / 86400000`. Dafny's division floors, as the ISO date string does.
- Loops that update state step by step are methods with loop invariants. Each is proved equal to a specification function, such as `Rsi.Readings`, `Performance.Fold` or `MonthlyReport.Group`, and the properties are lemmas about those functions.
  - The tax events are an `array` sorted in place.
  - The daily dictionary is a `map` paired with its key order, as JavaScript keeps it.
- Preconditions are only where the code itself misbehaves on the input:
  - `period >= 1` everywhere;
  - at least `period` prices for the EMA seed;
  - `fast <= slow` and a long enough MACD line for the signal EMA;
  - `|highs| >= |lows|`;
  - positive buy quantities in the performance fold, where the code divides by the bought volume.

Three behaviours of the code that the model keeps as written:
- A flat price series gives an RSI of `NaN`, not the conventional 50.
- A support or resistance is any bar that no neighbour strictly beats, so ties count at every tied bar. The levels are then deduplicated by value.
- RSI on fewer than `period + 1` prices gives an empty series, not an error.

## Model

| member | source | states |
|---|---|---|
| Series.Variance | src/tools/technical-analysis.ts:116 | the population variance of a window is never negative |
| Series.SumAppend | src/tools/technical-analysis.ts:53 | the sum of two concatenated windows is the sum of their sums |
| Series.SumWithin | src/tools/technical-analysis.ts:53 | a sum of n values within [lo, hi] lies within [n*lo, n*hi] |
| Series.SumSign | src/tools/technical-analysis.ts:31-32 | a sum of non-negative values is non-negative, of positive values positive, of zeros zero |
| Series.MeanWithin | src/tools/technical-analysis.ts:53-54 | the mean of values within [lo, hi] lies within [lo, hi] |
| Series.MeanOfConstant | src/tools/technical-analysis.ts:53-54 | the mean of a constant window is that constant |
| Series.SumSquaredDeviationsNonNegative | src/tools/technical-analysis.ts:116 | the summed squared deviations are non-negative |
| Series.SumSquaredDeviationsOfConstant | src/tools/technical-analysis.ts:116 | a constant window has no deviation from its value |
| MovingAverages.CalculateSMA | src/tools/technical-analysis.ts:50-57 | the loop yields max(0, n - period + 1) values, value k being the mean of prices[k .. k+period-1] |
| MovingAverages.SmaWithin | src/tools/technical-analysis.ts:52-55 | every SMA value lies within any bounds of the prices |
| MovingAverages.Multiplier | src/tools/technical-analysis.ts:62 | the smoothing factor 2/(period+1) lies in (0, 1] |
| MovingAverages.CalculateEMA | src/tools/technical-analysis.ts:60-73 | n - period + 1 values; the first is the SMA of the first window; each next one is price*k + previous*(1-k) |
| MovingAverages.NextEma | src/tools/technical-analysis.ts:62-69 | the loop body's value price*k + previous*(1-k) is the next EMA value |
| MovingAverages.EmaRecurrence | src/tools/technical-analysis.ts:68-70 | values agreeing with the EMA follow the recurrence value j = price*k + value (j-1)*(1-k) |
| MovingAverages.EmaWithin | src/tools/technical-analysis.ts:62-70 | every EMA value lies within any bounds of the prices |
| MovingAverages.EmaOfConstant | src/tools/technical-analysis.ts:62-70 | the EMA of a constant series is that constant throughout |
| MovingAverages.EmaSeedIsSma | src/tools/technical-analysis.ts:65 | the EMA seed equals the first SMA value |
| Rsi.GainLossSplit | src/tools/technical-analysis.ts:22-26 | gain and loss are non-negative, at most one is non-zero, and gain - loss is the price change |
| Rsi.GainsNonNegative | src/tools/technical-analysis.ts:24-25 | every gain and every loss in the seed window is non-negative |
| Rsi.Smooth | src/tools/technical-analysis.ts:40-41 | Wilder's step keeps a non-negative average non-negative, positive after a positive input, zero after zeros |
| Rsi.AvgGain | src/tools/technical-analysis.ts:31-40 | the running average gain is never negative |
| Rsi.AvgLoss | src/tools/technical-analysis.ts:32-41 | the running average loss is never negative |
| Rsi.SeedsAreMeans | src/tools/technical-analysis.ts:31-32 | the seeds are the plain means of the first `period` gains and losses |
| Rsi.ReciprocalBounds | src/tools/technical-analysis.ts:36 | 100/(1+rs) lies in (0, 100] and is 100 exactly when rs is 0 |
| Rsi.RsiOf | src/tools/technical-analysis.ts:35-43 | NaN exactly when both averages are 0; otherwise a value in [0, 100], 100 exactly when only losses are 0, 0 exactly when only gains are 0 |
| Rsi.Readings | src/tools/technical-analysis.ts:28-44 | the readings after m steps number m |
| Rsi.ReadingAt | src/tools/technical-analysis.ts:39-44 | reading j is the RSI of the j-th smoothed averages |
| Rsi.NextReading | src/tools/technical-analysis.ts:39-44 | one loop step smooths the next gain and loss into the averages and appends their RSI |
| Rsi.PriceChanges | src/tools/technical-analysis.ts:18-26 | n-1 gains and losses, non-negative, whose difference is each price change |
| Rsi.CalculateRSI | src/tools/technical-analysis.ts:15-47 | empty exactly when there are fewer than period+1 prices, else n - period readings matching the smoothed averages |
| Rsi.RisingPricesReadHundred | src/tools/technical-analysis.ts:35-43 | strictly rising prices have zero average loss and read 100 |
| Rsi.FallingPricesReadZero | src/tools/technical-analysis.ts:35-43 | strictly falling prices have zero average gain and read 0 |
| Rsi.FlatPricesReadNotANumber | src/tools/technical-analysis.ts:35-43 | constant prices give zero averages and read NaN |
| Macd.MacdLine | src/tools/technical-analysis.ts:81-86 | the MACD line is as long as the slow EMA, n - slow + 1 |
| Macd.CalculateMACD | src/tools/technical-analysis.ts:76-104 | macd[i] = fastEMA[i + slow - fast] - slowEMA[i]; the signal is the EMA of the line; histogram[j] = macd[j + signal - 1] - signal[j]; all lengths |
| Macd.SubtractAligned | src/tools/technical-analysis.ts:81-86 | the subtraction loop yields the MACD line of the two aligned EMAs |
| Macd.HistogramOf | src/tools/technical-analysis.ts:92-97 | one histogram value per signal value, each the aligned MACD value minus the signal |
| Macd.MacdWithin | src/tools/technical-analysis.ts:85 | a MACD value never exceeds the price range in magnitude |
| Macd.ConstantPricesZeroMacd | src/tools/technical-analysis.ts:76-104 | constant prices give a zero MACD line, a zero signal and a zero histogram |
| Bollinger.CalculateBollingerBands | src/tools/technical-analysis.ts:107-128 | the middle band is the SMA; the three bands are equally long; upper and lower are mean ± stdDev * sqrt(variance) per window |
| Bollinger.BandsOrdered | src/tools/technical-analysis.ts:116-120 | the bands are symmetric about the middle by stdDev * sd, sd >= 0, and lower <= middle <= upper when stdDev >= 0 |
| Bollinger.ConstantPricesCollapseBands | src/tools/technical-analysis.ts:112-120 | a constant window has zero deviation and all three bands equal to the constant |
| Ordering.Dedup | src/tools/technical-analysis.ts:161-162 | the Set keeps exactly the values of its input, each once |
| Ordering.Insert | src/tools/technical-analysis.ts:161-162 | inserting adds exactly one element |
| Ordering.InsertOrdered | src/tools/technical-analysis.ts:161-162 | insertion keeps a sequence ordered, and strictly so for a new value |
| Ordering.InsertElements | src/tools/technical-analysis.ts:161-162 | insertion adds the new value and nothing else |
| Ordering.Sort | src/tools/technical-analysis.ts:161-162 | the sort is an ordered permutation, strictly ordered when the input has no repeats |
| Ordering.SameMultisetSameElements | src/tools/technical-analysis.ts:161-162 | a permutation has the same elements |
| Ordering.SortedDistinct | src/tools/technical-analysis.ts:161-162 | dedup then sort keeps exactly the input's values, strictly ordered |
| Ordering.StrictlyOrderedUnique | src/tools/technical-analysis.ts:161-162 | two strictly ordered sequences with the same values are equal |
| SupportResistance.LocalLows | src/tools/technical-analysis.ts:135-147 | a value is collected exactly when some scanned bar with that low is not strictly beaten in its window |
| SupportResistance.LocalHighs | src/tools/technical-analysis.ts:135-158 | the same for highs and resistances |
| SupportResistance.ScanLow | src/tools/technical-analysis.ts:140-146 | the early-exit scan says support exactly when no neighbour's low is strictly lower |
| SupportResistance.ScanHigh | src/tools/technical-analysis.ts:150-156 | the early-exit scan says resistance exactly when no neighbour's high is strictly higher |
| SupportResistance.FindSupportResistance | src/tools/technical-analysis.ts:131-164 | supports and resistances are exactly the local extrema values (ties included), strictly descending and strictly ascending |
| SupportResistance.ScanBars | src/tools/technical-analysis.ts:135-158 | the scan collects the local lows and highs of the bars with a full window, in bar order, and nothing when the series is shorter than two windows |
| SupportResistance.SupportCandidates | src/tools/technical-analysis.ts:135-147 | the collected supports are exactly the lows of bars that no neighbour beats |
| SupportResistance.ResistanceCandidates | src/tools/technical-analysis.ts:135-158 | the collected resistances are exactly the highs of bars that no neighbour beats |
| SupportResistance.FlatLowsSingleSupport | src/tools/technical-analysis.ts:141-147 | flat lows report exactly one support, their value |
| Signals.RsiLabel | src/tools/technical-analysis.ts:214-226 | OVERBOUGHT iff the last reading is above 70, OVERSOLD iff below 30, NEUTRAL otherwise, for NaN and for no reading |
| Signals.RsiLabelOfMonotonePrices | src/tools/technical-analysis.ts:213-226 | rising prices are overbought, falling prices oversold, flat prices neutral |
| Signals.MacdLabel | src/tools/technical-analysis.ts:317-323 | BULLISH iff MACD above signal with a positive histogram, BEARISH iff below with a negative one, else NEUTRAL |
| Signals.AlignedMacdLabel | src/tools/technical-analysis.ts:309-323 | with aligned series the histogram test is redundant, so the label depends on MACD against signal alone |
| Signals.BollingerLabel | src/tools/technical-analysis.ts:420-436 | each of the four labels and positions holds exactly in its price band; NEUTRAL is never returned |
| Signals.CollapsedBandsHaveNoHalves | src/tools/technical-analysis.ts:420-436 | with collapsed bands the price is always at the upper or the lower band |
| Signals.TrendLabel | src/tools/technical-analysis.ts:551-560 | never STRONG_BEARISH; STRONG_BULLISH iff the ABOVE count equals the number of periods; BEARISH when it is above none and there is a period |
| Signals.TrendBelowEverything | src/tools/technical-analysis.ts:556-559 | below all of five averages: BEARISH as written, STRONG_BEARISH as intended |
| Signals.IntendedTrendLabel | src/tools/technical-analysis.ts:551-560 | with the zero test first, each label holds exactly in its range of counts |
| Signals.SignalsOf | src/tools/technical-analysis.ts:529-545 | the signal map has one key per distinct period |
| Signals.ClassifyAverages | src/tools/technical-analysis.ts:529-545 | the loop's map equals the specification, keyed by the distinct periods |
| Signals.AboveCount | src/tools/technical-analysis.ts:548 | the ABOVE count never exceeds the number of keys |
| Signals.DuplicatePeriodsNeverStrongBullish | src/tools/technical-analysis.ts:548-552 | a repeated period collapses in the map, so the count stays below the period count and STRONG_BULLISH is unreachable |
| Signals.FindFirst | src/tools/technical-analysis.ts:634-635 | `find` returns the first element passing the test (it passes and no earlier one does), or nothing exactly when no element passes |
| Signals.FirstPassingShift | src/tools/technical-analysis.ts:634-635 | when the head fails the test, the first passing element of the tail is the first passing element of the whole |
| Signals.FirstBelowIsLargest | src/tools/technical-analysis.ts:634 | on descending supports the first one below the price is the largest below it |
| Signals.FirstAboveIsSmallest | src/tools/technical-analysis.ts:635 | on ascending resistances the first one above the price is the smallest above it |
| Signals.NearestLevels | src/tools/technical-analysis.ts:634-635 | the nearest levels are the closest ones on each side, and `|| null` turns a level of 0 into none |
| Trades.DayOf | src/tools/reporting.ts:395 | the day key is the day whose milliseconds contain the time |
| Trades.TotalSnoc | src/tools/reporting.ts:40-45 | adding a trade adds its amount to the reduce |
| Trades.TotalAppend | src/tools/reporting.ts:40-45 | totals over two batches add up |
| Trades.Buys | src/tools/reporting.ts:152 | the buy filter keeps only buys, and keeps every buy |
| Trades.Sells | src/tools/reporting.ts:153 | the sell filter keeps only sells, and keeps every sell |
| Trades.BuySellCount | src/tools/reporting.ts:151-153 | buyTrades + sellTrades == totalTrades |
| Trades.BuyCostWithin | src/tools/reporting.ts:113-119 | the bought value lies between the bought volume priced at the lowest and at the highest buy price |
| Trades.BuyMeanPriceWithin | src/tools/reporting.ts:119 | value over volume of the buys lies within the buy price range |
| Trades.Summarize | src/tools/reporting.ts:39-58 | the count is the number of trades, and the average size is 0 with no trades and otherwise volume / count |
| Trades.AvgTradeSizeWithin | src/tools/reporting.ts:58 | the average trade size lies within the range of the quantities |
| Trades.SummarizeAppend | src/tools/reporting.ts:39-45 | summaries of two batches add up |
| Performance.Fold | src/tools/reporting.ts:110-127 | the bought volume is never negative |
| Performance.FoldSnoc | src/tools/reporting.ts:110-127 | folding one more fill is one more step |
| Performance.ApplyFill | src/tools/reporting.ts:111-126 | the loop body performs exactly one step of the fold |
| Performance.AccumulatePerformance | src/tools/reporting.ts:102-127 | the loop computes the fold of all fills |
| Performance.PositionBalance | src/tools/reporting.ts:115-126 | bought and sold volume and value are the sums over buys and sells, and position == bought - sold |
| Performance.AvgBuyPriceIsMean | src/tools/reporting.ts:119 | avgBuyPrice is 0 before any buy and totalBuyValue / totalBuyVolume after one |
| Performance.NoSellsNoRealizedPnL | src/tools/reporting.ts:120-126 | without sells nothing is realised |
| Performance.AvgBuyPriceWithin | src/tools/reporting.ts:119 | the average buy price lies within the buy price range |
| Performance.FlatMarketAvgBuyPrice | src/tools/reporting.ts:119 | in a market that never moves the average buy price is the market price |
| Performance.FlatMarketRealizesNothing | src/tools/reporting.ts:119-125 | in a market that never moves, with a buy first, realised PnL is 0 |
| Performance.FlatStepRealizesNothing | src/tools/reporting.ts:119-125 | a fill at the average buy price realises nothing |
| Performance.Roi | src/tools/reporting.ts:137-139 | 0 when nothing is invested, otherwise roi * invested == pnl * 100, with the sign of the PnL |
| Performance.PerformanceOf | src/tools/reporting.ts:129-158 | the counts add up, the position is bought minus sold, the invested amount is the bought value, and unrealised PnL and ROI are 0 in their guarded cases |
| ProfitLoss.ApplyFill | src/tools/reporting.ts:300-320 | the loop body performs exactly one step of the summary's fold |
| ProfitLoss.AccumulateProfitLoss | src/tools/reporting.ts:291-320 | the loop computes the fold of all fills |
| ProfitLoss.TallyTotals | src/tools/reporting.ts:305-315 | volume and fees sum over all fills, totalCost over the buys, and position is bought minus sold |
| ProfitLoss.WinsAndLossesCounted | src/tools/reporting.ts:308-318 | the win counter is the number of sales with a positive PnL against the average cost before them, the loss counter the number with a negative one |
| ProfitLoss.WinsAndLossesAreSales | src/tools/reporting.ts:308-318 | the counters count exactly the profitable and the losing sales, so a sale realising exactly 0 is neither; together they never exceed the sells; without sells nothing is realised |
| ProfitLoss.WinRate | src/tools/reporting.ts:330-331 | 0 with no scored sale, otherwise the winning share in [0, 100] |
| ProfitLoss.SummaryOf | src/tools/reporting.ts:322-345 | trade count, volume and fee totals, the win/loss bound, unrealised PnL 0 unless long, and win rate in [0, 100] |
| ProfitLoss.FlatMarketBooksLoss | src/tools/reporting.ts:308-318 | as written, buy/sell/buy/sell of one unit at any price p > 0 (10, say) doubles avgCost to 2p and books one losing sale of p |
| ProfitLoss.FlatStep | src/tools/reporting.ts:308-318 | with the corrected update, a covered fill at the market price keeps cost == price * position |
| ProfitLoss.FlatBuy | src/tools/reporting.ts:308-311 | a buy at the market price keeps cost == price * position and averages the cost at that price |
| ProfitLoss.FlatSale | src/tools/reporting.ts:313-318 | with the corrected update, a covered sale at the market price realises nothing and keeps cost == price * position |
| ProfitLoss.CorrectedFlatMarketRealizesNothing | src/tools/reporting.ts:308-318 | with the corrected update, a market that never moves realises nothing and scores no sale |
| MonthlyReport.DayTallyTotals | src/tools/reporting.ts:398-417 | a day's tally counts its fills, buy + sell == trades, and volume, value and fees are the sums |
| MonthlyReport.OnDay | src/tools/reporting.ts:395-397 | the fills selected for a day all fall on that day |
| MonthlyReport.GroupByDay | src/tools/reporting.ts:392-418 | the grouping loop computes the specified dictionary and key order |
| MonthlyReport.DaysTradedSnoc | src/tools/reporting.ts:395 | one more fill adds its day to the days traded |
| MonthlyReport.GroupKeys | src/tools/reporting.ts:397-406 | the dictionary's keys are exactly the listed days and exactly the days traded |
| MonthlyReport.GroupDaysDistinct | src/tools/reporting.ts:397-406 | each day is listed once, so the key count is the number of listed days |
| MonthlyReport.GroupIsFilter | src/tools/reporting.ts:394-418 | each day's entry is the tally of exactly the fills on that day |
| MonthlyReport.DailyBuysAndSells | src/tools/reporting.ts:413-417 | for each day, buyTrades + sellTrades == trades > 0 |
| MonthlyReport.DailyCountsSumToTotal | src/tools/reporting.ts:408 | the per-day counts add up to the number of fills |
| MonthlyReport.MonthlySummaryOf | src/tools/reporting.ts:420-434 | totals, average size, and tradingDays equal to the distinct days, at most the trade count |
| MonthlyReport.TradingDays | src/tools/reporting.ts:433 | tradingDays is the number of distinct days traded, at most the fill count and positive when there is a fill |
| MonthlyReport.DaysTradedBound | src/tools/reporting.ts:433 | there are never more trading days than fills, and at least one when there is a fill |
| TaxReport.EventOf | src/tools/reporting.ts:203-214 | an event keeps the fill's side, value and fee |
| TaxReport.SymbolEvents | src/tools/reporting.ts:202-215 | one event per fill, in fill order |
| TaxReport.CollectEvents | src/tools/reporting.ts:192-216 | the nested loops push exactly the specified events |
| TaxReport.SortByDate | src/tools/reporting.ts:219 | the in-place sort leaves the events ordered by date and permuted |
| TaxReport.SinkInto | src/tools/reporting.ts:219 | one insertion step extends the sorted prefix by one, permutes that prefix and leaves every later event in place |
| TaxReport.SinkStep | src/tools/reporting.ts:219 | swapping a later event past the new one moves the pass one place down and keeps the rest in date order |
| TaxReport.SinkDone | src/tools/reporting.ts:219 | a pass that stops leaves the prefix in date order |
| TaxReport.SwapDown | src/tools/reporting.ts:219 | exchanging two neighbouring events changes only those two, permutes the prefix they lie in and leaves the rest in place |
| TaxReport.PrefixPermutation | src/tools/reporting.ts:219 | permuting a prefix and keeping the rest permutes the whole |
| TaxReport.TallyAppend | src/tools/reporting.ts:222-231 | totals over two batches of events add up |
| TaxReport.BuyAndSellPartitionValue | src/tools/reporting.ts:222-228 | the BUY total and the SELL total add up to the total value |
| TaxReport.TallyPermutation | src/tools/reporting.ts:219-231 | totals do not depend on the order of the events |
| TaxReport.SummaryOfPermutation | src/tools/reporting.ts:219-242 | sorting the events changes no figure of the summary |
| TaxReport.SummaryOf | src/tools/reporting.ts:233-242 | netGainLoss == sells - buys, and the two add up to the total value |
| TaxReport.SymbolTotals | src/tools/reporting.ts:202-231 | one symbol's BUY, SELL and fee totals are its buy, sell and commission sums |
| TaxReport.SingleSymbolSummary | src/tools/reporting.ts:202-242 | for one symbol the summary's buy, sell and fee totals are its buy, sell and commission sums |
| TaxReport.ExportTaxReport | src/tools/reporting.ts:185-243 | the events come out sorted and permuted, and the summary equals that of the collected events and, for one symbol, its trade totals |

## Findings

| source | as written | input that shows it | evidently intended | confidence | as-written member | corrected member |
|---|---|---|---|---|---|---|
| src/tools/technical-analysis.ts:552-560 | the `aboveCount === 0` test comes after `aboveCount < totalCount * 0.3`, which already holds whenever the count is 0 and there is a period | price below all of five averages: aboveCount 0, totalCount 5 gives BEARISH | STRONG_BEARISH when the price is below every average | high; not executed | Signals.TrendLabel | Signals.IntendedTrendLabel |
| src/tools/reporting.ts:308-318 | a sale never reduces `totalCost`, so the next buy averages the cost of every unit ever bought over the units held | buy 1 at 10, sell 1 at 10, buy 1 at 10, sell 1 at 10: avgCost 20, realised PnL -10, one losing trade, though the price never moved (the same at any positive price) | a sale removes avgCost * qty from totalCost, so avgCost stays the cost of the units held and a flat market realises nothing | high; not executed | ProfitLoss.FlatMarketBooksLoss | ProfitLoss.CorrectedFlatMarketRealizesNothing |

`ProfitLoss.SummaryOf` keeps the update as the code writes it, since that is what the summary reports. The corrected fold, `ProfitLoss.CorrectedFold`, sits beside it with its property proved.

## Left out

- All exchange calls (`candles`, `myTrades`, `prices`), `async`/`await`, error handling and logging. The fills and the current price are parameters.
- `parseFloat`, `toFixed`, ISO date strings, `toLocaleString`, `Date.now`: string, clock and locale formatting. Amounts are exact reals and date keys are day numbers.
- IEEE-754 behaviour other than the RSI division by zero: rounding, overflow, and `Math.sqrt` precision.
- The percentage distances and bandwidth fields of the handlers, and the cross-symbol totals of the performance, monthly and P&L reports. These re-parse rounded strings or take `Math.max` of the per-symbol figures, and are presentation arithmetic.
- The tax event fields `feeAsset`, `orderId` and `tradeId`, which are copied through unchanged.
- TaxReport.SortByDate: proves the events sorted and permuted, not the stability of JavaScript's `sort`. Events with the same date may end up in another relative order.
- TaxReport.ExportTaxReport: does not state the relative order of same-day events. JavaScript's `sort` is stable, and the date keys have day granularity, so the code keeps collection order within a day; the model promises only date order and a permutation.
- MovingAverages.CalculateEMA: requires at least `period` prices. With fewer, the code's `reduce` on an empty slice throws, or its seed divides a short sum by `period`.
- Macd.CalculateMACD: requires `fast <= slow` and a MACD line at least `signalPeriod` long. Otherwise the code reads before the start of the fast EMA (`undefined`, so NaN MACD values), seeds the signal EMA from a short slice, or throws on an empty MACD line.
- Performance.Fold: requires every buy quantity to be positive. The code divides by the bought volume, and exchange fills are never empty.
- SupportResistance.FindSupportResistance: requires `|highs| >= |lows|`, as the code indexes `highs` by positions of `lows`.
