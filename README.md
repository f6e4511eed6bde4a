# crypto-follow analytics core in Dafny

crypto-follow is a cryptocurrency tracking application. This project models
its four pieces of analytics logic and proves properties of them.

- **Portfolio accounting** (`utils/portfolio.ts`):
  - A ledger of BUY/SELL transactions is folded into one position per symbol.
  - Symbols with a non-positive net amount are dropped.
  - The rest are valued against a symbol → price map and sorted by current value, descending.
  - The holdings are summed into a portfolio summary.
  - The P&L and percentage formatters choose a sign and an `isPositive` flag.
- **Technical indicators** (`utils/technicalIndicators.ts`):
  - Trailing simple moving averages (SMA).
  - The 7- and 30-period averages attached to a price series.
  - The golden/death cross scan, in which the last crossover found wins.
- **Price prediction** (`utils/prediction.ts`):
  - Ordinary least squares with a fallback for a degenerate denominator, plus R².
  - A forecast over the indices 0..n−1, projected forward and clamped at 0.
  - A trend label at ±0.5 % of the mean price.
  - A confidence label from R².
- **Alert check** (`app/api/cron/check-alerts/route.ts`):
  - Builds the price map, keyed by upper-cased market symbol.
  - Decides for each active alert whether its ABOVE/BELOW condition fires.
  - Collects the triggered ids in order.
  - Reports how many alerts were checked and how many triggered.

Layout:

| file | module |
|---|---|
| `common.dfy` | `Common`. `Option`, `Result` (a value, or the message of a thrown `Error`), `Day`, `PricePoint`, `Sum`, `Max`. |
| `real_algebra.dfy` | `RealAlgebra`. Scalar identities for the proofs (see below). |
| `technical_indicators.dfy` | `TechnicalIndicators` |
| `prediction.dfy` | `Prediction` |
| `portfolio.dfy` | `Portfolio` |
| `alert_check.dfy` | `AlertCheck` |

Numbers are Dafny `real`s, and arithmetic on them is exact.

In `RealAlgebra`, products and quotients go through `Mul` and `Quot`. These equal `a * b` and `a / b`, but the solver only sees that where the lemmas `MulIsProduct` and `QuotIsQuotient` are called. This keeps the proofs about whole sequences linear.

Where the source works by mutation, the model is a `method` proved equal to a specification function:

| method | specification function |
|---|---|
| `CalculateHoldings` and `GroupBySymbol` | `Holdings`, `PositionOf` |
| `DetectCrossovers` | `Scan` |
| `PredictPrices` | `Forecast` |
| `BuildPriceMap` | `PriceMapOf` |
| `SelectTriggered` | `TriggeredIds` |

The specification functions carry the lemmas.

## Model

| member | source | states |
|---|---|---|
| TechnicalIndicators.CalculateSMA | utils/technicalIndicators.ts:22-36 | An error "Period must be a positive number" exactly when period ≤ 0. Otherwise one entry per price; entry i is absent exactly when i < period−1, and otherwise is the mean of the `period` prices ending at i. |
| TechnicalIndicators.SMAPeriodBeyondLength | utils/technicalIndicators.ts:27-30 | A period longer than the series leaves every entry absent. |
| TechnicalIndicators.SMAPeriodOne | utils/technicalIndicators.ts:27-35 | With period 1, every entry is the price itself. |
| TechnicalIndicators.SMASlides | utils/technicalIndicators.ts:32-34 | Consecutive averages differ by (entering price − leaving price) / period. |
| TechnicalIndicators.SMAExample | __tests__/utils/technicalIndicators.test.ts:5-14 | [10,20,30,40,50] with period 3 gives [_, _, 20, 30, 40]. |
| TechnicalIndicators.AddSMAIndicators | utils/technicalIndicators.ts:43-53 | Same length. Each point keeps its date and price. Its sma7 and sma30 are entry i of the 7- and 30-period averages of the prices. |
| TechnicalIndicators.IndicatorsDefinedFrom | utils/technicalIndicators.ts:43-53 | sma7 is present exactly from index 6 on, and sma30 from index 29 on; each is the mean of the trailing window. |
| TechnicalIndicators.Scan | utils/technicalIndicators.ts:65-89 | The result after the pairs ending at 1..k−1: a golden cross (tested first) or else a death cross at a pair replaces flags and index. Never both flags; no index exactly when neither flag is set; an index lies in 1..k−1. |
| TechnicalIndicators.ScanReportsLastCrossover | utils/technicalIndicators.ts:65-89 | Never both flags. No index exactly when no pair crosses, and then no flag. Otherwise the index is the greatest crossing position in 1..k−1, with the flag of its kind. |
| TechnicalIndicators.DetectCrossovers | utils/technicalIndicators.ts:60-90 | The loop's result equals the scan, so it reports the last golden or death cross. A pair counts only when all four averages are truthy (present and non-zero). |
| TechnicalIndicators.ShortSeriesHasNoSignal | utils/technicalIndicators.ts:69 | Fewer than two points give no signal. |
| TechnicalIndicators.IndicatorCrossNeedsLongHistory | utils/technicalIndicators.ts:43-53 | On averages built by `addSMAIndicators`, no crossover is reported before index 30. |
| TechnicalIndicators.GoldenCrossExample | __tests__/utils/technicalIndicators.test.ts:70-81 | The golden-cross pair gives (true, false, 1). |
| TechnicalIndicators.DeathCrossExample | __tests__/utils/technicalIndicators.test.ts:83-94 | The death-cross pair gives (false, true, 1). |
| Prediction.LinearRegression | utils/prediction.ts:20-55 | An error with the source's message exactly when the lengths differ or are 0. Otherwise slope and intercept solve the normal equations of least squares, and the line passes through the point of means. rSquared is 1 − SSres/SStot (0 when SStot is 0) and lies in [0, 1]. A zero denominator gives (0, Σy/n, 0). |
| Prediction.RegressionMinimisesSquaredError | utils/prediction.ts:36-43 | No line has a smaller sum of squared errors than the fitted one. |
| Prediction.RegressionUnique | utils/prediction.ts:42-43 | With a non-zero denominator, the fitted line is the only solution of the normal equations. |
| Prediction.NormalEquationsMinimise | utils/prediction.ts:42-43 | Any solution of the normal equations minimises the squared error. |
| Prediction.DenominatorZeroIff | utils/prediction.ts:36-38 | n·Σx² − (Σx)² is 0 exactly when all x are equal. |
| Prediction.DenominatorNonNegative | utils/prediction.ts:36 | The denominator is never negative. |
| Prediction.DegenerateSolvesNormalEquations | utils/prediction.ts:38-40 | The fallback (0, Σy/n) solves the normal equations when the denominator is 0. |
| Prediction.RSquared | utils/prediction.ts:45-52 | Definition: 1 − SSres/SStot with SStot the spread of y about its mean, and 0 when SStot is not positive. Characterised by `RSquaredBounds`, `FlatLineRSquared` and `ExactLineRecovered`. |
| Prediction.RSquaredBounds | utils/prediction.ts:46-52 | For a least-squares line, 0 ≤ R² ≤ 1. |
| Prediction.FlatLineRSquared | utils/prediction.ts:38-40 | The flat line through the mean has R² 0. |
| Prediction.SquaredErrorShift | utils/prediction.ts:46-51 | The exact change in squared error when the line is moved, in terms of the residuals of the normal equations. |
| Prediction.ExactLineRecovered | __tests__/utils/prediction.test.ts:5-34 | Data lying exactly on y = a·x + b (x not all equal) is fitted with slope a, intercept b, and R² 1, or 0 when a = 0. |
| Prediction.IndicesDenominatorPositive | utils/prediction.ts:71-75 | With x = 0..n−1 and n ≥ 2, the denominator is positive, so `predictPrices` never takes the fallback. |
| Prediction.ClassifyTrend | utils/prediction.ts:94-104 | With a positive mean: bullish iff slope/mean·100 > 0.5, and bearish iff it is < −0.5. With a non-negative mean, bullish implies slope > 0 and bearish implies slope < 0. With a zero mean, bullish iff slope > 0 and bearish iff slope < 0. A zero slope is neutral. |
| Prediction.Projections | utils/prediction.ts:81-91 | Exactly `count` points. Point k falls k+1 days after the last date, at price max(0, slope·(n+k) + intercept), i.e. x = n−1+(k+1) on the fitted line, clamped at 0. |
| Prediction.Forecast | utils/prediction.ts:63-113 | An error "Need at least 2 data points for prediction" exactly when there are fewer than 2 points. Otherwise: max(0, daysToPredict) predictions; prediction i falls i+1 days after the last date at price max(0, slope·(n+i) + intercept) ≥ 0; slope and intercept solve the normal equations over the indices; rSquared is the R² of that line over the indices and prices (the value `getConfidenceLevel` is given), in [0, 1]; the trend is that of the slope against the mean price. |
| Prediction.PredictPrices | utils/prediction.ts:63-113 | The loop and the trend branches compute exactly `Forecast`. |
| Prediction.LinearHistoryFit | utils/prediction.ts:71-75 | Prices on a·i + b give slope a, intercept b, R² 1 (0 when a = 0), and mean price a·(n−1)/2 + b. |
| Prediction.LinearHistoryForecast | utils/prediction.ts:63-113 | For such a history, the forecast continues the line (clamped at 0) and its trend is the classification of a against that mean. |
| Prediction.RisingSeriesIsBullish | __tests__/utils/prediction.test.ts:46-60 | 100..140 gives 3 predictions, a bullish trend, and a first prediction of 150. |
| Prediction.FallingSeriesIsBearish | __tests__/utils/prediction.test.ts:62-75 | 100..60 gives a bearish trend and a first prediction of 50. |
| Prediction.GetConfidenceLevel | utils/prediction.ts:120-124 | "Élevée" iff R² ≥ 0.8, "Moyenne" iff 0.5 ≤ R² < 0.8, "Faible" iff R² < 0.5. |
| Prediction.ConfidenceMonotone | utils/prediction.ts:120-124 | A larger R² never gives a lower label. |
| Portfolio.Apply | utils/portfolio.ts:61-70 | Definition: a BUY adds its amount and amount·price to the accumulator and counts one buy; any other kind subtracts its amount and leaves cost and count alone. |
| Portfolio.PositionOf | utils/portfolio.ts:51-73 | Definition: the accumulator of a symbol after the ledger, starting from zeros and applying that symbol's transactions in ledger order. Characterised by `PositionOfIsNet`. |
| Portfolio.Symbols | utils/portfolio.ts:45-78 | Definition: the ledger's symbols in order of first occurrence, the iteration order of the Map. Characterised by `SymbolsMentioned`. |
| Portfolio.PriceOf | utils/portfolio.ts:81 | Definition: the map's price of a symbol, 0 when missing. |
| Portfolio.MakeHolding | utils/portfolio.ts:79-97 | Definition: the holding record built from a positive accumulator. Characterised by `HoldingFigures`, `CostBasisIsSpend` and `HoldingValuation`. |
| Portfolio.Holdings | utils/portfolio.ts:40-102 | Definition: the symbols with a positive net amount, valued, then sorted by value. Characterised by `HoldingExistsIff`, `HoldingsShape` and `HoldingValuation`. |
| Portfolio.PositionOfIsNet | utils/portfolio.ts:51-73 | The fold gives an amount equal to Σ BUY amounts − Σ other amounts, a cost equal to Σ amount·price over BUYs (sells never reduce it), and a buy count equal to the number of BUYs. |
| Portfolio.SymbolsMentioned | utils/portfolio.ts:45-78 | The map's keys, in insertion order, are distinct and are exactly the symbols in the ledger. |
| Portfolio.UnmentionedPosition | utils/portfolio.ts:52-56 | A symbol never traded has the empty accumulator. |
| Portfolio.GroupBySymbol | utils/portfolio.ts:51-73 | The first loop builds a map whose keys are the traded symbols, in first-seen order, and whose entry for each symbol is its fold. |
| Portfolio.CalculateHoldings | utils/portfolio.ts:40-102 | The two loops and the sort compute exactly `Holdings`. |
| Portfolio.Valued | utils/portfolio.ts:78-98 | Every entry is the valuation of a listed symbol with a positive amount, and every such symbol is valued. |
| Portfolio.CostBasisIsSpend | utils/portfolio.ts:82-84 | costBasis = amount · (totalCost/amount) equals the symbol's gross buy spend. |
| Portfolio.HoldingExistsIff | utils/portfolio.ts:51-79 | A holding for s exists iff Σ BUY − Σ other amounts for s is > 0. |
| Portfolio.HoldingsShape | utils/portfolio.ts:45-101 | At most one holding per symbol; currentValue is non-increasing; the result is a permutation of the valued list. |
| Portfolio.HoldingValuation | utils/portfolio.ts:79-97 | Each holding has the net amount (> 0), totalInvested equal to the buy spend, the map price (0 when missing), and pnl = currentValue − totalInvested. |
| Portfolio.HoldingFigures | utils/portfolio.ts:82-86 | averageBuyPrice = totalCost/amount when there was a buy, else 0. currentValue = amount·price. pnlPercentage = pnl/costBasis·100 when costBasis > 0, else 0. |
| Portfolio.SortByValue | utils/portfolio.ts:101 | The sort is a permutation of its input. |
| Portfolio.SortDescending | utils/portfolio.ts:101 | The sorted list is non-increasing in currentValue. |
| Portfolio.SortUnique | utils/portfolio.ts:101 | Sorting keeps the symbols distinct. |
| Portfolio.SortTotals | utils/portfolio.ts:113-114 | Sorting does not change the summed invested amount or value. |
| Portfolio.ValuedTotals | utils/portfolio.ts:113-114 | The sums over the holdings are the buy spend and the value (net amount · price) of the symbols still held. |
| Portfolio.Summarize | utils/portfolio.ts:107-126 | Definition: the summary of the holdings of the ledger, counting its transactions. Characterised by `SummaryTotals`, `EmptyLedgerSummary` and `TwoCoinSummary`. |
| Portfolio.SummaryOf | utils/portfolio.ts:113-125 | Definition: the two reduces, their difference, and the percentage guarded by a positive invested total. |
| Portfolio.CalculatePortfolioSummary | utils/portfolio.ts:107-126 | The reduces and the guarded percentage compute exactly `Summarize`. |
| Portfolio.SummaryTotals | utils/portfolio.ts:111-125 | totalInvested and currentValue are those sums over the symbols still held. The holdings are `calculateHoldings`. totalTransactions is the raw ledger length. |
| Portfolio.EmptyLedgerSummary | __tests__/utils/portfolio.test.ts:97-104 | An empty ledger gives all zeros and no holdings. |
| Portfolio.FormatPnL | utils/portfolio.ts:131-138 | isPositive iff pnl ≥ 0. The text starts with '+' exactly when positive. Otherwise it is "$" and the magnitude, with no minus sign. |
| Portfolio.FormatPercentage | utils/portfolio.ts:143-147 | isPositive iff the percentage ≥ 0. The text starts with '+' exactly when positive and with '-' exactly when negative, and always ends in '%'. |
| Portfolio.ZeroIsPositive | __tests__/utils/portfolio.test.ts:120-123 | Zero counts as positive in both formatters. |
| Portfolio.TwoBuys | __tests__/utils/portfolio.test.ts:11-24 | Two BTC buys give one holding of 1.5 worth 82500. |
| Portfolio.BuyThenPartialSell | __tests__/utils/portfolio.test.ts:26-36 | BUY 2, SELL 0.5 leaves 1.5. |
| Portfolio.TwoCoinHoldings | __tests__/utils/portfolio.test.ts:38-53 | BTC and ETH each give one holding, BTC first. |
| Portfolio.BuyThenFullSell | __tests__/utils/portfolio.test.ts:55-65 | BUY 1, SELL 1 leaves no holding. |
| Portfolio.SingleBuyProfit | __tests__/utils/portfolio.test.ts:67-77 | 1 bought at 50000 and now priced at 60000 gives pnl 10000 and 20 %. |
| Portfolio.TwoCoinSummary | __tests__/utils/portfolio.test.ts:81-95 | Invested 80000, value 90000, pnl 10000, 12.5 %, 2 transactions. |
| AlertCheck.ToUpper | app/api/cron/check-alerts/route.ts:69 | Definition: `toUpperCase` on ASCII letters. Characterised by `ToUpperNormalises`. |
| AlertCheck.ToUpperNormalises | app/api/cron/check-alerts/route.ts:69 | Upper-casing keeps the length, leaves no lower-case letter, and is idempotent. |
| AlertCheck.PriceMapContents | app/api/cron/check-alerts/route.ts:67-70 | The keys are exactly the upper-cased market symbols. A coin whose upper-cased symbol does not recur later sets that key's price, so a later duplicate wins. |
| AlertCheck.PriceMapOf | app/api/cron/check-alerts/route.ts:67-70 | Definition: one `set` per coin in listing order, under the upper-cased symbol. Characterised by `PriceMapContents`. |
| AlertCheck.PriceMapKeysUpper | app/api/cron/check-alerts/route.ts:69 | No key contains a lower-case letter. |
| AlertCheck.BuildPriceMap | app/api/cron/check-alerts/route.ts:67-70 | The `forEach` computes exactly `PriceMapOf`. |
| AlertCheck.Triggers | app/api/cron/check-alerts/route.ts:77-90 | Definition: the stored symbol has a non-zero price, which is strictly above the target for ABOVE or strictly below it for BELOW. Characterised by `AboveIff`, `BelowIff` and the never-triggers lemmas. |
| AlertCheck.TriggeredIds | app/api/cron/check-alerts/route.ts:73-93 | The ids of the firing alerts in alert order, never more than there are alerts. Characterised by `TriggeredIdsExact` and `TriggeredIdsAppend`. |
| AlertCheck.SelectTriggered | app/api/cron/check-alerts/route.ts:73-93 | The loop with its `continue` computes exactly `TriggeredIds`. |
| AlertCheck.AboveIff | app/api/cron/check-alerts/route.ts:77-87 | An ABOVE alert fires iff its symbol has a non-zero price strictly above the target. |
| AlertCheck.BelowIff | app/api/cron/check-alerts/route.ts:77-89 | A BELOW alert fires iff its symbol has a non-zero price strictly below the target. |
| AlertCheck.EqualPriceNeverTriggers | app/api/cron/check-alerts/route.ts:86-88 | A price equal to the target never fires. |
| AlertCheck.OtherConditionNeverTriggers | app/api/cron/check-alerts/route.ts:84-90 | A condition other than ABOVE/BELOW never fires. |
| AlertCheck.LowerCaseSymbolNeverTriggers | app/api/cron/check-alerts/route.ts:69-82 | The lookup is not upper-cased, so an alert symbol with a lower-case letter never fires. |
| AlertCheck.TriggeredIdsAppend | app/api/cron/check-alerts/route.ts:76-93 | Ids are collected in alert order: the ids for a + b are those for a followed by those for b. |
| AlertCheck.TriggeredIdsExact | app/api/cron/check-alerts/route.ts:73-93 | No more ids than alerts; every id comes from a firing alert; every firing alert's id is collected. |
| AlertCheck.CheckAlerts | app/api/cron/check-alerts/route.ts:51-131 | No alerts: "No active alerts to check" with 0/0. Missing or empty market data: the caught "Failed to fetch market data" error. Otherwise "Alert check completed", with checked = number of alerts and triggered = number of collected ids, never more than checked. |
| AlertCheck.AlertExample | app/api/cron/check-alerts/route.ts:67-93 | Lower-case market symbols "btc"/"eth" are found under "BTC"/"ETH". BTC above 50000 fires; ETH at 3100 does not fall below 3000. |

## Left out

- Floating point: IEEE rounding, NaN and ±Infinity are not modelled. All arithmetic is exact over `real`, so the tests' "close to" checks become equalities.
- Prediction.ClassifyTrend: with a zero mean price, JavaScript divides by 0. A non-zero slope gives ±Infinity, which the model follows by taking the sign of the slope. A zero slope gives NaN, which is neutral.
- Dates are day numbers (`Day`). The JavaScript `Date` parsing, `setDate` and ISO formatting in `predictPrices` become "last day + i".
- Portfolio.FormatPnL, Portfolio.FormatPercentage: `toLocaleString` and `toFixed(2)` depend on the locale and on floating point. The rendered digits of |value| are a parameter `magnitude`; only the signs, the `$`/`%` framing and `isPositive` are modelled.
- Portfolio.FormatPnL: a loss is rendered without a minus sign ("$500.00"). The code is followed here, so the text does not show a sign for negative P&L.
- TechnicalIndicators.CalculateSMA, Prediction.Forecast, Prediction.PredictPrices: `period` and `daysToPredict` are taken to be integers. JavaScript would accept a fraction, which makes `slice` truncate the window (so the entry is no longer a mean) and runs the forecast loop ⌈days⌉ times. Every caller passes 7, 30 or the default 7.
- `Number(...)` coercion of transaction amounts and prices is not modelled; inputs are numeric.
- The transaction `user_id` and `timestamp` take no part in the computation and are dropped.
- The comment above `calculateHoldings` speaks of FIFO. The code computes a gross average (sells never reduce the cost), and that is what is modelled.
- The unused `sumY2` in `linearRegression` is not modelled.
- Portfolio.SortByValue: it is a stable insertion sort, matching JavaScript's stable `Array.prototype.sort`. The proofs cover order, permutation and uniqueness of symbols, but not stability among equal values.
- JavaScript `Map` insertion order is modelled as an explicit `seq` of keys next to a Dafny `map`.
- AlertCheck.ToUpper: upper-casing covers ASCII letters only. Unicode case mapping is not modelled.
- Alert check route, outside lines 51-93 and 128-139: several parts are not modelled.
  - The Supabase queries.
  - The secret/authorisation check.
  - The environment checks and the rethrown `alertsError`.
  - `getUserById`.
  - The notification sending and `Promise.all`.
  - Marking triggered alerts inactive.
  - `console` logging.
  - The response timestamp and the HTTP status codes.

  The fetched alerts and market data are parameters (`Option`, with `None` standing for a non-array or missing value). The administrative `userId` of an alert is carried but unused.
- `formatCurrency` (utils/format) is not part of this model.
