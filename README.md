# Big Number with Trendline: value selection of `transformProps`

This project models the data-shaping core of the "Panel" (Big Number with
Trendline) chart plugin. The core is `transformProps`. It takes the rows of a
query result and the chart's form data and computes these values:

- the time series, with each row projected to a `(timestamp, value)` point
  and sorted newest first by the stable `Array.prototype.sort`;
- the headline number and its timestamp. This is the newest point's value.
  When that value is null, it is the first point with a value that `find`
  meets, and that point also becomes the fallback;
- the percent change against the point `compareLag` places back. It is
  computed only when the lag is positive and inside the series, the headline
  is set, and the compare value is neither null nor zero. In that case the
  subheader is replaced, even when the change works out to 0;
- the sign class (`positive`, `negative` or empty);
- the trendline. This is the series reversed in place into ascending time
  order. It is kept only for the `panel` viz type with the trendline switched
  on, together with its date and value lists;
- the y-axis format. A truthy configured format wins. Otherwise the
  `d3format` of the last datasource metric whose name equals the form's
  metric is used. An ad-hoc metric object never equals a name, because the
  comparison is strict.

Modules:

- `Wrappers`: `Option`.
- `Series`: points, the stable descending sort, `find`, and reversal (as a
  function and as an in-place array method).
- `CompareLag`: `Number(compareLag) || 0`.
- `AxisFormat`: the metric lookup loop.
- `PanelTransform`: the `transformProps` method, its stage methods, and the
  lemmas that say what the selected values mean in terms of the rows.

Timestamps are `int`. Values are `Option<real>`, with `None` for null. The
percent change is exact real arithmetic.

## Model

| member | source | states |
|---|---|---|
| `PanelTransform.TransformProps` | plugins/plugin-chart-panel/src/plugin/transformProps.ts:99-208 | Reads the form with its defaults (`MetricOf`: metric `'value'`; `RowsOf`: data `[]`; `MetricName`: a string metric or an ad-hoc metric's label; `LagOf`: the compare lag; subheader and suffix `''`). With no rows: no headline, no timestamp, no fallback, change 0, empty class, no trendline or lists, and the configured subheader (default `''`). Otherwise: the headline and timestamp are those of the first non-null point of the newest-first series; the fallback is that point only when the newest value is null; the change and subheader follow the compare guard; the class follows the change's sign; the trendline exists only for `panel` with the trendline on, is the reversed series, and its date and value lists are its `Times` and `Values` projections; the axis format is the resolved one. |
| `PanelTransform.PickHeadline` | plugins/plugin-chart-panel/src/plugin/transformProps.ts:148-155 | A non-null newest value is the headline, with its time and no fallback. A null newest value makes the fallback the first non-null point, or none, and the headline and timestamp are taken from that point or are both null. |
| `PanelTransform.CompareWithLag` | plugins/plugin-chart-panel/src/plugin/transformProps.ts:157-169 | The change is `(big - cmp) / abs(cmp)` exactly when `0 < lag < length`, the headline is set and the compare value is set and non-zero; otherwise it is 0. The subheader is replaced by the change text exactly in the first case. |
| `PanelTransform.AscendingTrendLine` | plugins/plugin-chart-panel/src/plugin/transformProps.ts:171-175 | The trendline data is the series reversed in place when it is shown, and absent otherwise. |
| `PanelTransform.HeadlineMostRecent` | plugins/plugin-chart-panel/src/plugin/transformProps.ts:143-155 | The headline point comes from a row, has a value, and no row with a value is newer. There is no headline exactly when every row's value is null. |
| `PanelTransform.HeadlineTieBreak` | plugins/plugin-chart-panel/src/plugin/transformProps.ts:143-155 | Among rows sharing the headline's timestamp, the headline is the first with a value in the order the query returned them. |
| `PanelTransform.PercentChangeSign` | plugins/plugin-chart-panel/src/plugin/transformProps.ts:157-169 | The change is positive iff the guard holds and the headline exceeds the compare value, negative iff the guard holds and it is below, and 0 iff the guard fails or the two are equal. |
| `PanelTransform.PercentChangeBounds` | plugins/plugin-chart-panel/src/plugin/transformProps.ts:162-163 | For a non-negative headline: against a positive compare value the change is at least -100%, and exactly -100% iff the headline is 0; against a negative compare value the change is at least +100%, because the divisor is the compare value's absolute size. |
| `PanelTransform.SignClassFollowsChange` | plugins/plugin-chart-panel/src/plugin/transformProps.ts:178-183 | The class is `positive` iff the value rose against the compare point, `negative` iff it fell, and empty iff it did not change or no comparison was made. |
| `PanelTransform.TrendLineAscending` | plugins/plugin-chart-panel/src/plugin/transformProps.ts:171-175 | The trendline is oldest first, is a permutation of the projected rows, and its date and value lists both have one entry per row. |
| `PanelTransform.Project` | plugins/plugin-chart-panel/src/plugin/transformProps.ts:143-144 | One point per row, in row order, holding the row's time and its metric column. |
| `Series.SortByTimeDesc` | plugins/plugin-chart-panel/src/plugin/transformProps.ts:143-146 | The sorted series is a permutation of its input with non-increasing timestamps. |
| `Series.SortByTimeDescStable` | plugins/plugin-chart-panel/src/plugin/transformProps.ts:146 | For every timestamp, the points carrying it keep their input order. |
| `Series.SortByTimeDescUnique` | plugins/plugin-chart-panel/src/plugin/transformProps.ts:146 | Any newest-first arrangement that keeps each timestamp's points in input order equals the modelled sort, so the stable sort's output is fully determined. |
| `Series.FirstNonNull` | plugins/plugin-chart-panel/src/plugin/transformProps.ts:152 | `find(d => d.y !== null)`. A result is a point with a value, and every point before it is null. There is no result iff every point is null. |
| `Series.FirstNonNullMostRecent` | plugins/plugin-chart-panel/src/plugin/transformProps.ts:151-155 | In a newest-first series, no point with a value is newer than the point `find` returns. |
| `Series.ReverseInPlace` | plugins/plugin-chart-panel/src/plugin/transformProps.ts:173 | After the in-place reversal, the array holds its old contents back to front. |
| `Series.ReversedAscending` | plugins/plugin-chart-panel/src/plugin/transformProps.ts:171-175 | Reversing a newest-first series gives an oldest-first series with the same points. |
| `CompareLag.LagOfIntText` | plugins/plugin-chart-panel/src/plugin/transformProps.ts:125 | A whole number typed as text becomes exactly that lag. |
| `CompareLag.LagOfNonNumeric` | plugins/plugin-chart-panel/src/plugin/transformProps.ts:125 | Text holding a character that appears in no numeric literal (not white space, an ASCII letter, a digit, a sign or a decimal point) is NaN to `Number` and gives lag 0. |
| `CompareLag.LagOf` | plugins/plugin-chart-panel/src/plugin/transformProps.ts:125 | `Number(compareLag)`, with NaN and 0 read as 0: undefined and NaN give 0, and a lag other than 0 comes only from a number or from text that reads as that number; `LagOfIntText` and `LagOfNonNumeric` say which texts give which lag. |
| `AxisFormat.LastSupplied` | plugins/plugin-chart-panel/src/plugin/transformProps.ts:186-190 | A result is the non-empty `d3format` of a matching entry after which no entry matches. There is no result iff no entry matches. |
| `AxisFormat.ResolveYAxisFormat` | plugins/plugin-chart-panel/src/plugin/transformProps.ts:185-191 | A truthy configured format is kept. A changed format is truthy and is the `d3format` of a matching metric entry. The loop computes the configured format when that is truthy or there is no metric list; otherwise the last supplied format, and when no entry supplies one, the configured value unchanged. |
| `AxisFormat.AdhocKeepsConfigured` | plugins/plugin-chart-panel/src/plugin/transformProps.ts:187 | An ad-hoc metric object never picks up a datasource format. |

## Left out

- The rendering component (`Panel.tsx`) is not part of this model. It measures text in the DOM, sizes fonts and lays out the page.
- The number and time formatters (`getNumberFormatter`, `getTimeFormatter`, `formatPercentChange`, `getTimeFormatterForGranularity`, `smartDateFormatter`) are foreign string formatting. So the returned `headerFormatter` and `formatTime` are not modelled. Neither are the integer `percentChange` and `indicateAsc`, which come from `parseInt(formatPercentChange(...))`, nor `trendlineColor`. The model returns the change before formatting, and the subheader keeps the change and suffix instead of the formatted text.
- `extractTimegrain`, the `d3-color` conversion of `colorPicker` into `mainColor`, the ECharts options object and `console.log` are library calls with no logic of their own here.
- Values passed through unchanged (`width`, `height`, font sizes, `boldText`, `headerText`, `showTimestamp`, `toDatetime`) are not modelled.
- The percent change uses exact reals. IEEE rounding is not modelled.
- Timestamps are integers and never null, so the comparator's null case is not modelled.
- A lag is an integer. Fractional text such as "1.5" makes the source index the series with a fraction and throw a TypeError when it reads the compare value; that failure is not modelled.
- `PanelTransform.TransformProps` requires every row to carry the metric column. The result type promises this. A missing key would read as `undefined`, which the source's strict `null` tests treat differently, and that case is not modelled.
- `CompareLag.NumberOfText` reads only blank text and optionally signed decimal digits as numbers. Hexadecimal, octal and binary literals, exponents, decimal points and `Infinity`, which `Number` also accepts, are read as NaN.
- An explicit `null` in `subheader`, `compareSuffix`, `metric` or the query's `data` is not modelled; the model's `None` there means a field left out, which gets the default. The source's defaults apply only to `undefined`: with `null` the source returns a `null` subheader (when no comparison is made), writes the text `null` after the change, or throws a TypeError when it reads the metric's label or the rows' length.
- Only the first query's rows are modelled, as the source reads only `queriesData[0]`.
- The source's `trendLineData` is the same array object as `sortedData`, and `bigNumberFallback` is one of its elements. The model keeps these as values, so this sharing is not represented.
