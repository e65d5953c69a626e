# Crypto dashboard: selection, metrics and trend verdict

A model of the logic behind a single-page cryptocurrency dashboard (`app.py`).
The page loads a table of daily observations (currency, date, price, a
smoothed "model" price, volatility, volume, weekly and monthly trend), lets the
user pick a currency and a date interval, and then shows:

- a prompt for the end date while the picker holds fewer or more than two dates;
- a warning when no row of that currency falls in the interval;
- otherwise a KPI row (current price and its change, volatility, model value
  and its change), the charts of the filtered rows, and a bullish or bearish
  narrative decided by the sign of price minus monthly trend.

The model is pure, like the code: functions over `seq<Row>` and lemmas.

- `rows.dfy` — `Rows.Row`, one table row with the CSV's columns; dates are day numbers.
- `filter.dfy` — the boolean-mask filter, the positions it keeps, and the picker bounds.
- `metrics.dfy` — the KPI stage: values from the last row, deltas against the second-to-last.
- `trend.dfy` — the bullish/bearish verdict and the narrative block.
- `dashboard.dfy` — `Dashboard.Run`, one render from (table, currency, picked dates) to an
  `Outcome`: `NeedEndDate`, `NoData` or `Report(series, kpis, narrative)`.
- `wrappers.dfy` — an `Option` type.

Every sequence index the model uses is checked in bounds by the verifier. That includes
the second-to-last row, which is read only when there are at least two rows.

## Model

| member | source | states |
|---|---|---|
| Filter.InRange | app.py:52-53 | holds when start <= fecha <= end, both bounds inclusive; a row can be in range only when start <= end |
| Filter.Matches | app.py:50-53 | the mask: holds when moneda equals the selected currency and the date is in range; a row can match only when start <= end |
| Filter.FilterRows | app.py:50-54 | every kept row has the selected currency and a date in [start, end] inclusive; never more rows than the table |
| Filter.CurrencyRows | app.py:50-51 | the currency condition alone: every kept row has the selected currency, and every table row of that currency is kept |
| Filter.Positions | app.py:50-54 | the positions (index labels) the mask keeps are all positions of the table |
| Filter.PositionsAreExactlyTheMatches | app.py:50-54 | the mask's positions are strictly ascending, and a table position is among them exactly when its row matches |
| Filter.FilterIsMaskSelection | app.py:50-54 | the filtered rows are exactly the table rows at the mask's positions, in table order: no matching row dropped, none reordered |
| Filter.FilterAtPosition | app.py:50-54 | the k-th filtered row is the table row at the k-th mask position, so `iloc[-1]` and `iloc[-2]` of the view are the table rows at the last two mask positions |
| Filter.NoMatchBetweenPositions | app.py:50-54 | no table row strictly between two consecutive mask positions matches the selection |
| Filter.NoMatchAfterLastPosition | app.py:50-54 | no table row after the last mask position matches the selection |
| Filter.InvertedRangeIsEmpty | app.py:52-53 | a start date after the end date keeps no row |
| Filter.CoveringRangeIsCurrencyFilter | app.py:50-54 | when every table date lies in [start, end], the filter equals the currency-only filter |
| Filter.FilterKeepsDateOrder | app.py:50-54 | a table whose rows are in date order within each currency gives a filtered view in date order |
| Filter.MinDate | app.py:34 | the earliest date: no row is earlier and some row has it |
| Filter.MaxDate | app.py:35 | the latest date: no row is later and some row has it |
| Filter.DefaultRangeIsCurrencyFilter | app.py:34-54 | with the picker's default interval [earliest, latest], the filter equals the currency-only filter |
| Metrics.MetricStage | app.py:63-76 | no metrics exactly for an empty view; otherwise current price, volatility and model value of the last row; deltas 0 with one row, last minus second-to-last with two or more |
| Metrics.AppendedRowBecomesCurrent | app.py:67-76 | appending a row to a non-empty view makes it current, with deltas measured from the previously current values |
| Trend.Diferencia | app.py:113 | price minus monthly trend: positive exactly when the price is above the trend, and adding it back to the trend gives the price |
| Trend.Classify | app.py:113-115 | Bullish exactly when the difference is positive, Bearish exactly when it is zero or negative |
| Trend.Narrate | app.py:113-129 | Bullish exactly when price exceeds monthly trend; bullish uses success and info boxes, bearish warning and error boxes; both quote the selected currency, the price and the monthly trend |
| Trend.EqualityIsBearish | app.py:115-123 | a price equal to its monthly trend is bearish, so there is no neutral state |
| Dashboard.Run | app.py:46-65 | end-date prompt exactly when the picker does not hold two dates; with two dates, no-data exactly when the filter is empty; a report shows exactly the filtered rows |
| Dashboard.ReportRowsMatchSelection | app.py:46-54 | every row in a report has the selected currency and a date within the two picked dates |
| Dashboard.InvertedRangeIsNoData | app.py:50-65 | picking a start date after the end date always gives the no-data outcome |
| Dashboard.ReportReadsLastRow | app.py:67-115 | a report's current price, volatility, model value, verdict and whole narrative (tones and quoted amounts) all come from the last shown row |
| Dashboard.ReportDeltas | app.py:69-76 | a report with one row has zero deltas; with two or more, the deltas are last minus second-to-last for price and model |
| Dashboard.MetricsFromLastMatchingRows | app.py:67-73 | the metric stage on a non-empty filtered view takes the current price, volatility and model value from the last matching table row, and both deltas from it and the matching row before it |
| Dashboard.ReportUsesLastMatchingRows | app.py:50-73 | in table terms: the current price, volatility, model value and narrative are those of the last matching table row (no later row matches), and both deltas are taken against the matching row just before it |
| Dashboard.ReportIsLatestWhenSorted | app.py:50-67 | on a table whose rows are in date order within each currency (the currencies may be grouped or interleaved), the current row has the latest date among the shown rows |
| Dashboard.DefaultSelectionShowsWholeCurrency | app.py:34-54 | with the default interval, the outcome is never the end-date prompt; it is no-data exactly when the currency has no rows, and otherwise the report shows all rows of that currency |
| Dashboard.ThreeBtcDaysExample | app.py:46-115 | three BTC days priced 100, 105, 110, with monthly trend 108 on the last day, give current 110, delta +5 and a bullish verdict |

## Left out

- Loading the CSV, parsing `fecha` and caching the result (app.py:16-23): file I/O and a framework cache. The table arrives as an already parsed `seq<Row>`.
- Time of day in `fecha`: the filter compares calendar dates (`.dt.date`), so each row's `fecha` is modelled as a day number after that truncation.
- The currency list and widget behaviour (app.py:29-42): the selected currency and the picker's tuple (zero, one or two day numbers) are inputs to `Dashboard.Run`. Only the picker's default interval is modelled, through `Filter.MinDate` and `Filter.MaxDate`.
- Filter.MinDate: requires a non-empty table. The earliest and latest dates of an empty table are not dates, and the page cannot offer a picker for them.
- `st.stop`, `st.info`, `st.warning`, `st.metric` and the styled boxes: these are presentation. They appear only as `Outcome` constructors and as the `Trend.Tone` of each narrative box. The narrative's wording is not modelled.
- The Plotly charts (app.py:87-106): a rendering library. A report carries the filtered rows they plot.
- Number formatting (`:.2f`, `:.4f`) and IEEE floating point: amounts are Dafny `real`. The source's integer `0` delta is the real `0.0`.
- A trailing-window period filter (the last N rows of a currency) is described for other versions of the dashboard. It does not appear in `app.py`, which only filters by a date interval, and it is not modelled.
- Date order within each currency is assumed of the data and not enforced by the code. The model proves date-order facts only under `Rows.SortedWithinCurrency`; it does not assume one row per currency and date.
