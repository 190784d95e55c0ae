# OrderBookVisualizer core, modelled in Dafny

OrderBookVisualizer shows a live crypto order book. It keeps a local copy
of the book from depth-diff messages, then derives several views from the
published best-first order lists: a market summary panel, a cumulative
depth chart and a set of volatility indicators. This project models the
computation behind those views, one Dafny module per source class.

- `OrderBook` (`order_book.dfy`) covers `OrderBookHandler`.
  - The two sides are `map<real, string>` fields of a class. Prices are
    numeric keys, as `BigDecimal` keys of a `TreeMap` compare by value.
  - `HandleMessage` runs the bid loop, then the ask loop, removing a level
    for the quantities `"0"` and `"0.00000000"` and storing any other
    quantity verbatim.
  - The sorted view gives the best level of each side and the first ten
    levels in side order. Bids are listed highest price first and asks
    lowest price first.
  - The batch's net effect (`Effect`, `Merge`) is the reference
    definition the loops are proved against. Last-entry-wins, idempotence
    and "untouched levels stay" are proved about it.
- `Volatility` (`volatility.dfy`) covers `VolatilityIndicators`.
  - The sample history is a bounded FIFO, a `seq` field. `AddPriceData`
    appends a sample and runs the evict-oldest loop.
  - The indicators are average true range (ATR), window ATR, price
    velocity, spike detection and the volatility percentile. Each is a
    method with the source's loops, proved equal to a function. The
    zero guards, non-negativity, the 0–100 bound and the flat-price
    characterisation are proved about those functions.
- `MarketInfo` (`market_info.dfy`) covers `MarketInfoWidget`.
  - The best prices are read from the list heads. The mid price is
    rounded half-up to 2 decimals and the spread is exact. The spread
    percentage is rounded half-up to 6 decimals and classed tight,
    normal or wide.
  - The widget's label state and remembered best prices are class fields.
- `DepthChart` (`depth_chart.dfy`) covers `DepthChartView`.
  - The running-total series skips unreadable orders. The bid series is
    reversed in place in an `array`.
- `TradingPairs` (`trading_pair.dfy`) covers `TradingPair`.
  - It models case normalisation, the stream symbol, the display name and
    the stream address. The getters of lines 16-19 are the fields of the
    `TradingPair` datatype.
- `Decimal` (`decimal.dfy`) covers the `BigDecimal` behaviour the program
  relies on.
  - It gives the value of a numeric string, `RoundingMode.HALF_UP` at a
    fixed scale, and `MathContext(8, HALF_UP)`, which rounds to 8
    significant digits.
- `Wrappers` and `Orders` hold `Option` and the `(price, quantity)` order
  record.

Numbers are exact `real`s. An exception the source throws and catches is
an `Option`/`None` result or an early return that leaves the state as the
source leaves it.

## Model

| member | source | states |
|---|---|---|
| OrderBook.ParseEntry | src/main/java/com/visualizer/OrderBookHandler.java:39-40 | an entry reads iff it has at least two elements and its first is a decimal numeral; the entry is (that number, the second element) |
| OrderBook.Applicable | src/main/java/com/visualizer/OrderBookHandler.java:38-40 | the entries applied are exactly those before the first unreadable one, and the entry after them, if any, is unreadable; all of them iff every entry reads |
| OrderBook.ApplyAll | src/main/java/com/visualizer/OrderBookHandler.java:38-49 | applying a batch adds no price other than those its entries name: the new keys lie among the old keys and the entries' prices |
| OrderBook.ApplyEntry | src/main/java/com/visualizer/OrderBookHandler.java:42-48 | a removal quantity deletes the price, any other quantity (including "0.0") is stored verbatim at it, every other level is unchanged |
| OrderBook.Effect | src/main/java/com/visualizer/OrderBookHandler.java:38-49 | the net effect of a batch touches exactly the prices its entries name |
| OrderBook.Merge | src/main/java/com/visualizer/OrderBookHandler.java:38-49 | a side overlaid with a net effect: touched prices take their final status, untouched prices keep their level |
| OrderBook.ApplyAllIsMerge | src/main/java/com/visualizer/OrderBookHandler.java:38-49 | applying entries one at a time in list order gives the side overlaid with the batch's net effect |
| OrderBook.LastEntryWins | src/main/java/com/visualizer/OrderBookHandler.java:38-49 | the last entry for a price decides whether the price is present afterwards and what it holds |
| OrderBook.UntouchedPrice | src/main/java/com/visualizer/OrderBookHandler.java:38-49 | a price no entry names keeps its presence and its quantity |
| OrderBook.ApplyAllIdempotent | src/main/java/com/visualizer/OrderBookHandler.java:42-48 | applying the same batch twice leaves the side as applying it once |
| OrderBook.StoreTwice | src/main/java/com/visualizer/OrderBookHandler.java:45-48 | storing the same non-removal entry twice equals storing it once |
| OrderBook.InsertThenRemove | src/main/java/com/visualizer/OrderBookHandler.java:42-48 | storing a new price and then removing it with "0" restores the side |
| OrderBook.Status | src/main/java/com/visualizer/OrderBookHandler.java:42 | a quantity leaves its price absent iff it is "0" or "0.00000000", otherwise it leaves the quantity itself |
| OrderBook.BestKey | src/main/java/com/visualizer/OrderBookHandler.java:18-19 | the first key of a non-empty side ranks before every other key: the highest bid, the lowest ask |
| OrderBook.Ordered | src/main/java/com/visualizer/OrderBookHandler.java:18-19 | the side's key order: every price exactly once, strictly descending for bids and ascending for asks |
| OrderBook.Top | src/main/java/com/visualizer/OrderBookHandler.java:79-87 | min(n, size) levels, each a level of the side with its quantity, strictly ordered, and no omitted price ranks before a listed one |
| OrderBook.Best | src/main/java/com/visualizer/OrderBookHandler.java:67-71 | None ("-") iff the side is empty, otherwise a level of the side that ranks before every other price |
| OrderBook.BestHeadsTop | src/main/java/com/visualizer/OrderBookHandler.java:67-87 | the best level is the first row of the published table |
| OrderBook.OrderBookHandler.constructor | src/main/java/com/visualizer/OrderBookHandler.java:18-19 | both sides start empty |
| OrderBook.OrderBookHandler.HandleMessage | src/main/java/com/visualizer/OrderBookHandler.java:33-97 | bids take the applicable bid entries; asks change only when every bid entry read and the ask list exists; a view is published iff the whole message applied; its best levels are Best of the new sides and its tables are their first ten levels in side order (Top) |
| OrderBook.OrderBookHandler.ApplyBids | src/main/java/com/visualizer/OrderBookHandler.java:38-49 | the bid loop returns true iff every entry reads, applies the entries before the first failure, and never touches asks |
| OrderBook.OrderBookHandler.ApplyAsks | src/main/java/com/visualizer/OrderBookHandler.java:52-63 | the ask loop, symmetrically; never touches bids |
| Decimal.Parse | src/main/java/com/visualizer/OrderBookHandler.java:39 | a text reads only when it is non-empty, and reads as a negative number only when it starts with '-' |
| Decimal.ParseNeedsDigit | src/main/java/com/visualizer/OrderBookHandler.java:39 | only a text holding at least one digit reads |
| Decimal.ParsePlainDecimal | src/main/java/com/visualizer/OrderBookHandler.java:39 | a numeral `whole.fraction` reads as its digits times 10^-(number of fraction digits) |
| Decimal.ParseWholeNumber | src/main/java/com/visualizer/MarketInfoWidget.java:137 | a run of digits reads as its value |
| Decimal.HalfUp | src/main/java/com/visualizer/MarketInfoWidget.java:190 | the nearest integer with ties away from zero: within half of the input, on the input's side of zero |
| Decimal.RoundHalfUp | src/main/java/com/visualizer/MarketInfoWidget.java:190 | a whole number of units 10^-scale, within half a unit of the input, never of the other sign |
| Decimal.Magnitude | src/main/java/com/visualizer/VolatilityIndicators.java:15 | the decade of a positive number: 10^(e-1) <= x < 10^e |
| Decimal.RoundPositive | src/main/java/com/visualizer/VolatilityIndicators.java:15 | a positive number to 8 significant digits: a whole number of last-digit units within half a unit, in the same decade or its upper bound |
| Decimal.RoundSignificant | src/main/java/com/visualizer/VolatilityIndicators.java:15 | 8-significant-digit rounding keeps zero and the sign, symmetric about zero |
| Decimal.RoundSignificantUnitInterval | src/main/java/com/visualizer/VolatilityIndicators.java:191-193 | rounding a share in [0, 1] keeps it in [0, 1] |
| TradingPairs.UpperChar | src/main/java/com/visualizer/TradingPair.java:10-11 | upper-casing a character maps an ASCII lower-case letter to its capital, keeps everything else, and never yields a lower-case letter |
| TradingPairs.LowerChar | src/main/java/com/visualizer/TradingPair.java:12 | lower-casing a character, symmetrically |
| TradingPairs.Upper | src/main/java/com/visualizer/TradingPair.java:10-11 | upper-casing a string, character by character, keeps its length |
| TradingPairs.Lower | src/main/java/com/visualizer/TradingPair.java:12 | lower-casing a string, character by character, keeps its length |
| TradingPairs.NewPair | src/main/java/com/visualizer/TradingPair.java:9-14 | the codes have no lower-case letters and equal the inputs up to case; the symbol has no upper-case letters and equals base+quote up to case; the display name is BASE/QUOTE |
| TradingPairs.WebSocketUrl | src/main/java/com/visualizer/TradingPair.java:21-23 | the address is the stream prefix, the symbol and "@depth", with each part at its position |
| TradingPairs.ToStringOfNewPair | src/main/java/com/visualizer/TradingPair.java:13-28 | the text of a new pair is the upper-cased base, "/", and the upper-cased quote, and equals base + "/" + quote up to case |
| TradingPairs.LowerOfUpper | src/main/java/com/visualizer/TradingPair.java:10-12 | lower-casing after upper-casing is lower-casing |
| TradingPairs.UpperOfLower | src/main/java/com/visualizer/TradingPair.java:10-12 | upper-casing after lower-casing is upper-casing |
| TradingPairs.CaseInsensitive | src/main/java/com/visualizer/TradingPair.java:9-23 | inputs that differ only in letter case give the same pair and the same stream address |
| TradingPairs.UrlDeterminesSymbol | src/main/java/com/visualizer/TradingPair.java:21-23 | two pairs with the same stream address have the same symbol |
| TradingPairs.DisplayNameSplits | src/main/java/com/visualizer/TradingPair.java:13 | when the base code has no '/', the display name splits at its first '/' back into the two normalised codes |
| MarketInfo.HeadPrice | src/main/java/com/visualizer/MarketInfoWidget.java:132-143 | an empty list reads as zero; otherwise the head's price text read as a decimal, None when it does not read |
| MarketInfo.PriceLabel | src/main/java/com/visualizer/MarketInfoWidget.java:161-185 | a best-price label shows the price iff it is strictly positive, otherwise "--" |
| MarketInfo.MidPrice | src/main/java/com/visualizer/MarketInfoWidget.java:190 | a whole number of cents within half a cent of (bid+ask)/2, never negative for a non-negative sum |
| MarketInfo.SpreadPercent | src/main/java/com/visualizer/MarketInfoWidget.java:198 | None iff the mid price is zero; otherwise a whole number of millionths within half a millionth of spread/mid, a tie going away from zero, with the spread's sign when mid > 0 |
| MarketInfo.Classify | src/main/java/com/visualizer/MarketInfoWidget.java:202-212 | tight iff < 0.001, normal iff in [0.001, 0.005), wide iff >= 0.005 |
| MarketInfo.Derive | src/main/java/com/visualizer/MarketInfoWidget.java:187-219 | nothing is derived iff a side is not positive; the percentage fails iff both are positive and bid+ask < 0.01; the spread is exact, the mid is cent-rounded, the percentage is SpreadPercent(spread, mid): a whole number of millionths within half a millionth of spread/mid, a tie going away from zero, and the class is Classify of that rounded percentage |
| MarketInfo.MarketInfoWidget.constructor | src/main/java/com/visualizer/MarketInfoWidget.java:29-42 | every label shows "--" and both remembered prices are zero |
| MarketInfo.MarketInfoWidget.UpdateMarketInfo | src/main/java/com/visualizer/MarketInfoWidget.java:130-159 | an unreadable head changes nothing; otherwise labels follow the derived values; when the percentage fails, its label, the style and the remembered prices keep their old values, else the prices are stored |
| MarketInfo.MarketInfoWidget.UpdateDerivedValues | src/main/java/com/visualizer/MarketInfoWidget.java:187-219 | completes iff the percentage does not fail; sets the mid, spread and percentage labels and the style from the derived values, and nothing else |
| MarketInfo.MarketInfoWidget.Clear | src/main/java/com/visualizer/MarketInfoWidget.java:245-254 | every label shows "--" and both remembered prices are zero; the style is left as it was |
| MarketInfo.MidRoundsToZero | src/main/java/com/visualizer/MarketInfoWidget.java:190-198 | with both sides positive, the mid price is zero (and the division throws) iff bid+ask < 0.01 |
| MarketInfo.CrossedBookIsTight | src/main/java/com/visualizer/MarketInfoWidget.java:194-205 | a crossed or locked book with a non-zero mid is always classed tight |
| MarketInfo.ClassifyMonotone | src/main/java/com/visualizer/MarketInfoWidget.java:202-212 | a larger spread percentage never gets a tighter class |
| MarketInfo.ExampleBook | src/main/java/com/visualizer/MarketInfoWidget.java:132-212 | bids headed by "100.00" and asks headed by "100.50" give mid 100.25, spread 0.5 and percentage 0.004988, classed normal |
| DepthChart.ReadOrder | src/main/java/com/visualizer/DepthChartView.java:98-106 | an order is used iff both its price and its quantity parse, with those two numbers |
| DepthChart.PresentLength | src/main/java/com/visualizer/DepthChartView.java:97-107 | no more present values than entries, and as many iff every entry is present |
| DepthChart.PresentCount | src/main/java/com/visualizer/DepthChartView.java:97-107 | the number of present values is the number of present entries |
| DepthChart.PresentPositions | src/main/java/com/visualizer/DepthChartView.java:97-107 | every present entry appears, in order: entry i sits at the position counting the present entries before it |
| DepthChart.ReadableLength | src/main/java/com/visualizer/DepthChartView.java:97-107 | no more readable orders than orders, and as many iff every order reads |
| DepthChart.ReadablePositions | src/main/java/com/visualizer/DepthChartView.java:97-107 | as many readable orders as orders that read, and each order that reads appears with its numbers at the position counting the readable orders before it |
| DepthChart.CurvePoints | src/main/java/com/visualizer/DepthChartView.java:97-103 | point i of the curve carries quote i's price and the total quantity of quotes 0..i |
| DepthChart.Reverse | src/main/java/com/visualizer/DepthChartView.java:110 | the same elements, last first |
| DepthChart.DepthChartView.constructor | src/main/java/com/visualizer/DepthChartView.java:25-26 | both series start empty |
| DepthChart.DepthChartView.UpdateBidSeries | src/main/java/com/visualizer/DepthChartView.java:87-115 | the bid series is replaced by the reversed running-total curve of the readable bids; the ask series is unchanged |
| DepthChart.DepthChartView.UpdateAskSeries | src/main/java/com/visualizer/DepthChartView.java:117-142 | the ask series is replaced by the running-total curve of the readable asks; the bid series is unchanged |
| DepthChart.DepthChartView.Clear | src/main/java/com/visualizer/DepthChartView.java:144-147 | both series become empty |
| DepthChart.RunningTotals | src/main/java/com/visualizer/DepthChartView.java:97-107 | the loop yields the running-total curve of the readable orders; unreadable orders add no point and nothing to the total |
| DepthChart.ReverseInPlace | src/main/java/com/visualizer/DepthChartView.java:110 | the array afterwards holds its old contents reversed |
| DepthChart.TotalGrows | src/main/java/com/visualizer/DepthChartView.java:101 | with non-negative quantities a longer prefix never has a smaller total |
| DepthChart.CurveShape | src/main/java/com/visualizer/DepthChartView.java:91-103 | with non-negative quantities the running totals are non-negative and non-decreasing, and the last equals the sum of all quantities |
| DepthChart.BidDepthAscends | src/main/java/com/visualizer/DepthChartView.java:93-110 | the bid series has one point per readable bid, its totals never increase left to right, and its prices strictly increase when the bids arrive best first |
| Volatility.Recent | src/main/java/com/visualizer/VolatilityIndicators.java:24-31 | the last min(n, capacity) elements, in arrival order |
| Volatility.RecentAppend | src/main/java/com/visualizer/VolatilityIndicators.java:24-31 | trimming after each append equals trimming the whole arrival stream; the newest sample is last |
| Volatility.Move | src/main/java/com/visualizer/VolatilityIndicators.java:44-54 | a true range is never negative |
| Volatility.SumMoves | src/main/java/com/visualizer/VolatilityIndicators.java:41-57 | a sum of true ranges is never negative |
| Volatility.Atr | src/main/java/com/visualizer/VolatilityIndicators.java:37-60 | zero with fewer than periods+1 samples; None (division by zero) iff periods is 0 and a sample exists; never negative |
| Volatility.AtrForSubset | src/main/java/com/visualizer/VolatilityIndicators.java:229-239 | zero below two samples, never negative |
| Volatility.Velocity | src/main/java/com/visualizer/VolatilityIndicators.java:89-103 | zero with fewer than periods+1 samples; None (index out of range) iff periods is negative |
| Volatility.Spike | src/main/java/com/visualizer/VolatilityIndicators.java:146-162 | (false, 0, 0) for a short history; reports the two ATRs; None iff one of them throws; with a long enough history, a spike iff the long ATR is positive and the rounded ratio exceeds the threshold |
| Volatility.CountBelow | src/main/java/com/visualizer/VolatilityIndicators.java:187-189 | no more ranges below than ranges |
| Volatility.Percentile | src/main/java/com/visualizer/VolatilityIndicators.java:167-194 | zero for a history shorter than the lookback, and zero when no window in the lookback has a positive ATR; every result lies in [0, 100] |
| Volatility.KeptEmpty | src/main/java/com/visualizer/VolatilityIndicators.java:174-182 | no window ATR is kept iff every window ATR in the range is zero |
| Volatility.VolatilityIndicators.constructor | src/main/java/com/visualizer/VolatilityIndicators.java:13-19 | an empty history with the given capacity |
| Volatility.VolatilityIndicators.AddPriceData | src/main/java/com/visualizer/VolatilityIndicators.java:24-31 | the history becomes the last `maxHistorySize` samples of old history plus the new one, and stays within capacity |
| Volatility.VolatilityIndicators.CalculateAtr | src/main/java/com/visualizer/VolatilityIndicators.java:37-60 | the loop computes Atr of the history |
| Volatility.VolatilityIndicators.CalculatePriceVelocity | src/main/java/com/visualizer/VolatilityIndicators.java:89-103 | computes Velocity of the history |
| Volatility.VolatilityIndicators.DetectVolatilitySpike | src/main/java/com/visualizer/VolatilityIndicators.java:146-162 | computes Spike of the history |
| Volatility.VolatilityIndicators.CalculateVolatilityPercentile | src/main/java/com/visualizer/VolatilityIndicators.java:167-194 | computes Percentile of the history |
| Volatility.WindowRanges | src/main/java/com/visualizer/VolatilityIndicators.java:170-180 | the loop keeps exactly the positive window ATRs of data[i-cp..i] for cp <= i < end, in order |
| Volatility.CalculateAtrForSubset | src/main/java/com/visualizer/VolatilityIndicators.java:229-239 | the loop computes AtrForSubset |
| Volatility.KeptShape | src/main/java/com/visualizer/VolatilityIndicators.java:174-180 | every kept window ATR is positive, and there is at most one per window |
| Volatility.SumMovesZero | src/main/java/com/visualizer/VolatilityIndicators.java:41-57 | a sum of true ranges is zero iff every one of them is zero |
| Volatility.AtrZeroIffFlat | src/main/java/com/visualizer/VolatilityIndicators.java:37-60 | for 1 <= periods < size, the ATR is zero iff the price did not change over the latest `periods` steps |
| Volatility.SumMovesShift | src/main/java/com/visualizer/VolatilityIndicators.java:229-239 | the true ranges of a suffix are the history's true ranges shifted by the suffix's start |
| Volatility.AtrIsLatestWindow | src/main/java/com/visualizer/VolatilityIndicators.java:37-60 | the ATR over `periods` moves equals the window ATR of the latest periods+1 samples |
| Volatility.SpikeNeedsMovement | src/main/java/com/visualizer/VolatilityIndicators.java:146-162 | a reported spike implies the price moved within the long window |
| Volatility.VelocitySign | src/main/java/com/visualizer/VolatilityIndicators.java:89-103 | the velocity is positive iff the price and time changes have the same strict sign, negative iff opposite signs |

## Left out

- JSON decoding (Jackson) is not modelled. `HandleMessage` takes the decoded bid and ask lists, each `None` when the message lacks it. The update ids are never checked by the source and are not modelled.
- Transport, threads and UI wiring are left out: the WebSocket client, `Platform.runLater`, `ObservableList.setAll`, chart and label widgets, and the flash animation. The published order-book view is a return value.
- Console and error output (`printf`, `System.err`) is left out.
- OrderBook.View returns the console best levels and the ten-level tables together. The source produces one or the other, depending on whether the widget lists exist.
- OrderBook.Top lists prices as numbers. The source prints the `BigDecimal` key's text, and a `TreeMap` keeps the spelling of the first key inserted for a value (for example "1.0" and then "1.00").
- Decimal.Parse covers the plain syntax of `new BigDecimal(String)`: a sign, digits with one optional point, and an exponent. Java's non-ASCII digits and the 32-bit exponent limit are not modelled.
- DepthChart takes `Double.parseDouble` as a parameter (`NumberReader`). Its text syntax, IEEE rounding and the `double` running sum are not modelled; quantities are exact reals.
- MarketInfo.Classify compares the exact percentage with 0.001 and 0.005. The source compares its `double` value, which is not modelled.
- MarketInfo.MarketInfoWidget: label text is a `Display` value (`Dashes` or `Shows(number)`). The `$#,##0.00` and `0.000%` formatting is not modelled.
- MarketInfo.MarketInfoWidget.spreadStyle: the source adds and removes style classes; the model keeps the one class they leave.
- Volatility.Velocity treats `timeChange / 1000.0` as an exact real. The source's `double` conversion and the `long` subtraction overflow are not modelled.
- Volatility.Spike compares with the threshold as an exact real. The source uses `BigDecimal.valueOf(double)`.
- Volatility.VolatilityIndicators.constructor takes a `nat` capacity. With a negative capacity the source's eviction loop empties the queue and then `poll` returns null forever; that case is not modelled.
- Volatility.Atr and Volatility.Velocity do not model the `int` overflow of `periods + 1` (VolatilityIndicators.java:38 and :90). With `periods` equal to `Integer.MAX_VALUE` the source's size guard passes: the ATR then divides the sum of every move by `Integer.MAX_VALUE` and the velocity reads a negative index and throws, while the model returns `Some(0.0)`.
- TradingPairs.UpperChar, TradingPairs.LowerChar, TradingPairs.Upper and TradingPairs.Lower map ASCII letters only. Java's `toUpperCase()`/`toLowerCase()` use the default locale and full Unicode: 'é' upper-cases to 'É', 'ß' upper-cases to "SS", which changes the length, and a Turkish locale maps 'i' to 'İ'.
- `ConcurrentLinkedQueue` is modelled as a plain sequence under single-threaded calls.
- `calculateBollingerBandWidth`, `calculateHistoricalVolatility`, `calculateSMA`, `calculateStandardDeviation` and the Newton square root are not modelled. Their results depend on the iteration's 8-digit rounding and its stopping rule.
- Volatility.Percentile does not sort the kept ranges. The source's `Collections.sort` does not change how many ranges are below the current one.
- The depth chart's and summary panel's listeners, and the order-book table views, are presentation code and are not modelled.

### Behaviour of the code worth knowing

The model follows the code in each of these cases.

- A parse failure in an order-book message ends the whole message, not just the one entry. Entries already applied stay applied and nothing is published.
- Only the exact texts "0" and "0.00000000" remove a level. "0.0" is stored.
- No crossed-book check and no sequence-gap check exist.
- When the spread-percentage division throws, the mid and spread labels have already changed. The remembered best prices are not updated.
