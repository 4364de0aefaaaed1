# Rivian stock dashboard: indicator pipeline and insight rules

`rivian_analysis.py` is a small dashboard. It fetches a year of daily bars for
one ticker (open, high, low, close, volume) and adds seven indicator columns
to the frame:

- the 14-period relative strength index (RSI);
- the MACD line and its signal line;
- the 50- and 200-bar simple moving averages;
- the upper and lower 20-bar Bollinger bands.

It then drops every row that has a not-a-number cell and reduces the last
remaining row to a short list of signals: strong bullish trend,
overbought or oversold, and bullish or bearish momentum.

This project models that pipeline over the reals. Each indicator cell is
an `Option<real>`, where `None` is not-a-number.

| module | file | models |
|---|---|---|
| `Options` | `options.dfy` | `Option` for a not-a-number cell, `Result` for a computation that raises |
| `Series` | `series.dfy` | sums, means, extremes, trailing windows, squared deviations |
| `Ewm` | `ewm.dfy` | `ewm(com=…/span=…, adjust=False).mean()` and its smoothing factors |
| `Rsi` | `rsi.dfy` | `diff`, the up/down split, the two smoothed averages, `100 - 100/(1+rs)` |
| `Macd` | `macd.dfy` | `exp12 - exp26` and its 9-span signal line |
| `Rolling` | `rolling.dfy` | `rolling(k).mean()`, `rolling(20).std()`, the Bollinger bands |
| `Frame` | `frame.dfy` | bars, indicator rows, `dropna` |
| `Insights` | `insights.dfy` | the rules applied to `hist.iloc[-1]`, and the pipeline end to end |

The pandas averages with `adjust=False` follow a seeded recurrence. The
first average is the first value, and each later average is
`alpha * x + (1 - alpha) * previous`. The factor is `1 / (1 + com)` for
`com`, so `1/14` for the RSI. It is `2 / (span + 1)` for `span`, so `2/13`,
`2/27` and `2/10` for MACD.

The gain and loss columns are not-a-number only on the first row. pandas
seeds their averages at the first defined value, so the model smooths the
`N - 1` defined changes, and row `i` carries the average after change
`i - 1`.

Floating-point division by zero is modelled explicitly:

- A zero loss average with a positive gain average makes `rs` infinite, so
  the RSI is exactly 100.
- When both averages are zero the RSI is `0 / 0`, not-a-number.

So the RSI of a row is defined exactly when the close has moved at least
once by that row. The 200-bar mean is the last of the window columns to
become defined, from row 199 on. A row is therefore complete exactly when
its 200-bar mean and its RSI are both defined. Together these give the model's main result (`AnalyseSucceedsIff`):

- The pipeline produces insights if and only if there are at least 200 bars
  and the close is not flat.
- The insights it produces are those of the last bar's row.

In every other case `dropna` leaves an empty frame, and `hist.iloc[-1]`
raises. The model returns `Failure(EmptyFrame)` for that.

On a flat close every RSI cell is `0 / 0`, so `dropna` empties the frame
and `hist.iloc[-1]` raises (`FlatCloseFails`). Lines 130-139 produce only
the five signals of `Signal`.

The rolling standard deviation needs a square root, which cannot be defined
over the reals here. The pipeline therefore takes the platform's `sqrt` as a
parameter. Statements about the bands assume `IsSqrt(sqrt)`: a non-negative
result whose square is the argument, for every non-negative argument.

## Model

| member | source | states |
|---|---|---|
| Ewm.AlphaFromCom | rivian_analysis.py:65-66 | the `com` smoothing factor lies in (0, 1] and satisfies `alpha * (1 + com) == 1` |
| Ewm.AlphaFromSpan | rivian_analysis.py:70-73 | the `span` smoothing factor lies in (0, 1] and satisfies `alpha * (span + 1) == 2` |
| Ewm.SmoothingConstants | rivian_analysis.py:65-73 | the four factors are exactly 1/14 (com 13), 2/13, 2/27 and 2/10 (spans 12, 26, 9), all strictly between 0 and 1 |
| Ewm.EwmBetween | rivian_analysis.py:65-73 | the average is a convex combination: any bounds on the observations so far bound it |
| Ewm.EwmWithinRange | rivian_analysis.py:65-73 | the average lies between the minimum and maximum of the observations so far |
| Ewm.EwmOfConstant | rivian_analysis.py:65-73 | a constant input has that constant as its average on every row |
| Ewm.EwmZeroIff | rivian_analysis.py:65-66 | for non-negative input, the average is non-negative, and zero iff every observation so far is zero |
| Ewm.EwmCausal | rivian_analysis.py:65-73 | the average on row i depends only on rows 0..i |
| Ewm.EwmBelowRising | rivian_analysis.py:65-73 | on a strictly rising input the average is at or below the latest observation, strictly below it from row 1 on |
| Ewm.EwmOfLinear | rivian_analysis.py:65-73 | on an input rising by a constant step the average is the latest observation minus a lag that depends only on the row, the step and `1 - alpha` |
| Ewm.LagGrowth | rivian_analysis.py:65-73 | that lag grows by `step * (1 - alpha)^(i+1)` from row i to row i + 1 |
| Ewm.ComputeEwm | rivian_analysis.py:65-73 | the single forward pass carrying the previous average produces the recurrence on every row |
| Rsi.UpDownSplit | rivian_analysis.py:62-64 | on row 0 the change, gain and loss are all undefined; afterwards gain and loss are >= 0, at most one is non-zero, and gain minus loss is the change |
| Rsi.FlatDay | rivian_analysis.py:62-64 | a day's gain and loss are both zero iff the close did not change that day |
| Rsi.RsiValue | rivian_analysis.py:67-68 | a positive loss average gives a value in [0, 100) with `rsi * (up + down) == 100 * up`; a zero loss average gives 100 if the gain average is positive and not-a-number if it is zero |
| Rsi.SmoothedNonnegative | rivian_analysis.py:65-66 | both smoothed averages are defined and non-negative from row 1 on |
| Rsi.RsiDefinedIff | rivian_analysis.py:62-68 | the RSI on row i is defined iff i >= 1 and the close changed on some row in 1..i |
| Rsi.ConstantCloseRsiUndefined | rivian_analysis.py:62-68 | a flat close leaves the RSI undefined on every row |
| Rsi.RisingCloseRsi | rivian_analysis.py:62-68 | a close that rises every day has an RSI of exactly 100 on every row from 1 on |
| Rsi.FallingCloseRsi | rivian_analysis.py:62-68 | a close that falls every day has an RSI of exactly 0 on every row from 1 on |
| Macd.FlatMacd | rivian_analysis.py:70-73 | on a flat close both price averages equal the price, and the MACD line and its signal are zero on every row |
| Macd.MacdBounded | rivian_analysis.py:70-73 | the MACD line and the signal line are at most the range (max - min) of the closes so far in absolute value |
| Macd.LinearRiseMacdRising | rivian_analysis.py:70-72 | on a close rising by the same positive step every day, the MACD line rises strictly from row to row |
| Macd.LinearRiseBullish | rivian_analysis.py:70-73 | on a close rising by the same positive step every day, the signal line is strictly below the MACD line from row 1 on |
| Macd.ComputeMacd | rivian_analysis.py:70-73 | three averaging passes and a difference produce the MACD and signal columns on every row |
| Rolling.RollingMeanSpec | rivian_analysis.py:75-78 | a k-bar mean is undefined iff i < k - 1; otherwise it is the window sum over k and lies between the window's minimum and maximum |
| Rolling.SampleVarianceZeroIff | rivian_analysis.py:79 | the sample variance (divisor n - 1) is non-negative, and zero iff the window is constant |
| Rolling.BollingerShape | rivian_analysis.py:78-81 | the bands are undefined before row 19; from row 19 on both are defined, upper - mean == mean - lower == 2 * sd, sd >= 0 squares to the window's sample variance, and lower <= mean <= upper |
| Rolling.BandsMeetIff | rivian_analysis.py:78-81 | from row 19 on, the two bands are equal iff the 20 closes of the window are all equal |
| Rolling.ComputeRollingMean | rivian_analysis.py:75-78 | the running-sum pass, which adds the newest value and drops the oldest once the window is full, gives the trailing mean on every row |
| Frame.Indicators | rivian_analysis.py:62-81 | the indicator frame has one row per bar, in order, and keeps each bar unchanged |
| Frame.DropNa | rivian_analysis.py:83 | `dropna` keeps at most as many rows as it is given, and every kept row is complete |
| Frame.KeptIndices | rivian_analysis.py:83 | the positions of complete rows are strictly increasing, each is complete, and every complete position is listed |
| Frame.DropNaSelects | rivian_analysis.py:83 | `dropna` returns exactly the rows at the complete positions, in their original order |
| Frame.RowComplete | rivian_analysis.py:62-83 | row i survives `dropna` iff i >= 199 and the close has moved at least once by row i |
| Frame.DropNaBound | rivian_analysis.py:83 | at most max(0, N - 199) rows survive `dropna` |
| Frame.KeepsCompleteLast | rivian_analysis.py:83 | a complete last row is the last row after `dropna` |
| Frame.DropsAllIncomplete | rivian_analysis.py:83 | `dropna` of a frame with no complete row is empty |
| Frame.LastKeptRow | rivian_analysis.py:83 | the last kept row is the last bar's row when that row is complete; otherwise the cleaned frame is empty |
| Insights.Rules | rivian_analysis.py:129-139 | the list has 1 to 3 entries; the trend entry is present iff close > sma50 > sma200 and is then first; overbought iff rsi > 70; oversold iff rsi < 30; never both; the last entry is the only momentum entry, bullish iff macd > signal (a tie or not-a-number gives bearish); the length counts exactly these entries |
| Insights.AnalyseSucceedsIff | rivian_analysis.py:62-139 | the pipeline yields insights iff there are at least 200 bars and the close has moved at least once; the insights are then those of the last bar's row |
| Insights.FlatCloseFails | rivian_analysis.py:62-139 | a flat close always ends in the empty-frame failure |
| Insights.ShortHistoryFails | rivian_analysis.py:75-139 | fewer than 200 bars always end in the empty-frame failure |
| Insights.TrendingOverboughtRow | rivian_analysis.py:130-139 | a row with close > sma50 > sma200 and rsi > 70 yields trend, overbought and one momentum entry |
| Insights.FallingOversoldRow | rivian_analysis.py:130-139 | a row whose close is not above sma50 and whose rsi < 30 yields oversold and one momentum entry |
| Insights.RisingLastRow | rivian_analysis.py:62-83 | for a strictly increasing close of at least 200 bars, the last row has close > sma50 > sma200 and an RSI of 100 |
| Insights.FallingLastRow | rivian_analysis.py:62-83 | for a strictly decreasing close of at least 200 bars, the last row's close is not above sma50 and its RSI is 0 |
| Insights.RisingCloseInsights | rivian_analysis.py:62-139 | a strictly increasing close of at least 200 bars yields trend, overbought, then either momentum entry |
| Insights.BullishRow | rivian_analysis.py:130-139 | a row with close > sma50 > sma200, rsi > 70 and macd > signal yields exactly [trend, overbought, bullish momentum] |
| Insights.SteadyRiseLastRow | rivian_analysis.py:62-83 | for a close of at least 200 bars rising by the same positive step every day, the last row is trending, overbought, and has its MACD above its signal |
| Insights.SteadyRiseInsights | rivian_analysis.py:62-139 | a close of at least 200 bars rising by the same positive step every day yields exactly [trend, overbought, bullish momentum] |
| Insights.FallingCloseInsights | rivian_analysis.py:62-139 | a strictly decreasing close of at least 200 bars yields exactly [oversold, momentum] |
| Series.RisingTrend | rivian_analysis.py:75-76 | on a strictly increasing series the last value is above the short trailing mean, and that mean is above the long trailing mean |
| Series.FallingBelowMean | rivian_analysis.py:75-76 | on a strictly decreasing series the last value is at or below any trailing mean |

## Left out

- Fetching: the Polygon client, `fetch_data`, the snapshot and ticker-details calls and their error handling (lines 6-47) are network I/O through a foreign library. The model starts from the sequence of bars.
- The one-hour `st.cache_data` cache (line 13) is framework state.
- Insights.RisingCloseInsights: for an arbitrary strictly increasing close the momentum entry is not determined, because the signal line can lie on either side of the MACD line. The bullish entry is proved for a close rising by a constant step (`SteadyRiseInsights`).
- Presentation is left out: metrics and their "N/A" formatting, the recent-data table, all charts, writing the insight lines, and the caption with the current time (lines 50-59, 86-124, 141-144). `Insights.Message` keeps the exact text of each insight line.
- The early stop on an empty download (lines 57-59) is a UI stop. An empty frame reaches the rules only as the empty-frame failure.
- Timestamps and the date index (lines 26-27) are left out. Rows are adjacent by sequence position only.
- IEEE-754 rounding is left out. Prices are exact reals, so results can differ from the floats pandas computes in the last bits. The negative zero that `-delta.clip(upper=0)` produces on rising days is the real 0.
- The square root is a parameter. The band lemmas assume it is exact (`IsSqrt`), whereas numpy's square root is correctly rounded.
- pandas reweights the average over a not-a-number gap inside a column. No such gap arises in this pipeline, because the gain and loss columns are undefined only on row 0, so that reweighting is not modelled.
- pandas clamps a rolling variance that rounding makes slightly negative to zero. Over the reals the variance is never negative, so nothing needs clamping.
