/** `transformProps` of the Big Number with Trendline panel: from the rows
    of a query result and the chart's form data, the headline number, its
    timestamp and fallback, the percent change against an earlier point,
    the sign class, the subheader, the trendline series and the y-axis
    format. */
module PanelTransform {
  import opened Wrappers
  import opened Series
  import opened CompareLag
  import opened AxisFormat

  /** The column that holds a row's time. */
  const TimeColumn: string := "__timestamp"

  /** One row of the query result. Its time is kept apart from the other
      columns; a metric value of `None` is a null in the result. */
  datatype Datum = Datum(time: int, columns: map<string, Option<real>>)

  /** The chart's form data, as far as transformProps reads it for the
      values modelled here. Fields with a default in transformProps are
      `Option`s, `None` standing for a field that is left out, so that the
      default applies. */
  datatype FormData = FormData(
    compareLag: LagInput,
    compareSuffix: Option<string>,
    metric: Option<Metric>,
    showTrendLine: bool,
    subheader: Option<string>,
    vizType: string,
    yAxisFormat: Option<string>)

  /** What the host hands to transformProps: the form data, the rows of the
      first query (`None` when the response leaves them out) and the metric
      list of the datasource (`None` when there is no datasource or it has
      no metric list). */
  datatype ChartProps = ChartProps(
    formData: FormData,
    data: Option<seq<Datum>>,
    datasourceMetrics: Option<seq<MetricEntry>>)

  /** The subheader: the configured text, or the formatted percent change
      followed by the compare suffix (the number formatter itself is not
      modelled, so the change and the suffix are kept as they are). */
  datatype Subheader = Configured(text: string) | ChangeText(change: real, suffix: string)

  /** The display values transformProps computes. `percentChange` is the
      change before it is formatted and parsed back to an integer. */
  datatype PanelProps = PanelProps(
    bigNumber: Option<real>,
    timestamp: Option<int>,
    bigNumberFallback: Option<Point>,
    percentChange: real,
    className: string,
    subheader: Subheader,
    showTrendLine: bool,
    trendLineData: Option<seq<Point>>,
    dateList: Option<seq<int>>,
    valueList: Option<seq<Option<real>>>,
    yAxisFormat: Option<string>)

  // ---------------------------------------------------------------------
  // Reading the input.
  // ---------------------------------------------------------------------

  /** The chart's metric, `'value'` when the form leaves it out. */
  function MetricOf(fd: FormData): Metric {
    fd.metric.GetOr(Saved("value"))
  }

  /** The query's rows, none when the response leaves them out. */
  function RowsOf(props: ChartProps): seq<Datum> {
    props.data.GetOr([])
  }

  /** The value of column `name` in row `d`; the time column reads as the
      row's time. */
  function Column(d: Datum, name: string): Option<real>
    requires name == TimeColumn || name in d.columns
  {
    if name == TimeColumn then Some(d.time as real) else d.columns[name]
  }

  /** Every row carries the column `name`: the result is typed so that each
      row maps every column to a number or null. */
  predicate CarriesColumn(rows: seq<Datum>, name: string) {
    forall i :: 0 <= i < |rows| ==> name == TimeColumn || name in rows[i].columns
  }

  /** Each row becomes a point holding its time and its value in column
      `name`, in row order. */
  function Project(rows: seq<Datum>, name: string): (r: seq<Point>)
    requires CarriesColumn(rows, name)
    ensures |r| == |rows|
    ensures forall i :: 0 <= i < |rows| ==> r[i] == Point(rows[i].time, Column(rows[i], name))
  {
    seq(|rows|, i requires 0 <= i < |rows| => Point(rows[i].time, Column(rows[i], name)))
  }

  /** `sortedData`: the projected rows, newest first. */
  function TimeSeries(rows: seq<Datum>, name: string): seq<Point>
    requires CarriesColumn(rows, name)
  {
    SortByTimeDesc(Project(rows, name))
  }

  // ---------------------------------------------------------------------
  // Percent change and sign class.
  // ---------------------------------------------------------------------

  function Abs(v: real): real {
    if v < 0.0 then -v else v
  }

  /** When a comparison is made: a positive lag inside the series, a
      headline number, and a compare value that is neither null nor 0. */
  predicate CompareApplies(big: Option<real>, s: seq<Point>, lag: int) {
    0 < lag < |s| && big.Some? && s[lag].y.Some? && s[lag].y.value != 0.0
  }

  /** The percent change of the headline against the point `lag` places
      further back in the newest-first series, 0 where the guard fails. */
  function PercentChange(big: Option<real>, s: seq<Point>, lag: int): real {
    if CompareApplies(big, s, lag) then
      (big.value - s[lag].y.value) / Abs(s[lag].y.value)
    else 0.0
  }

  /** The label the panel styles the change with: `positive` for a rise,
      `negative` for a fall, empty otherwise. */
  function SignClass(change: real): string {
    if change > 0.0 then "positive"
    else if change < 0.0 then "negative"
    else ""
  }

  function Times(t: seq<Point>): (r: seq<int>)
    ensures |r| == |t| && forall i :: 0 <= i < |t| ==> r[i] == t[i].x
  {
    seq(|t|, i requires 0 <= i < |t| => t[i].x)
  }

  function Values(t: seq<Point>): (r: seq<Option<real>>)
    ensures |r| == |t| && forall i :: 0 <= i < |t| ==> r[i] == t[i].y
  {
    seq(|t|, i requires 0 <= i < |t| => t[i].y)
  }

  // ---------------------------------------------------------------------
  // transformProps.
  // ---------------------------------------------------------------------

  /** The headline: the newest point's value and time, or, when that value
      is null, those of the first point `find` meets with a value, which
      also becomes the fallback. */
  method PickHeadline(sortedData: seq<Point>)
    returns (bigNumber: Option<real>, timestamp: Option<int>, bigNumberFallback: Option<Point>)
    requires |sortedData| > 0
    ensures sortedData[0].y.Some? ==>
              bigNumber == sortedData[0].y && timestamp == Some(sortedData[0].x) && bigNumberFallback.None?
    ensures sortedData[0].y.None? ==>
              bigNumberFallback == FirstNonNull(sortedData)
              && bigNumber == (if bigNumberFallback.Some? then bigNumberFallback.value.y else None)
              && timestamp == (if bigNumberFallback.Some? then Some(bigNumberFallback.value.x) else None)
    ensures var head := FirstNonNull(sortedData);
            && bigNumber == (if head.Some? then head.value.y else None)
            && timestamp == (if head.Some? then Some(head.value.x) else None)
  {
    bigNumber := sortedData[0].y;
    timestamp := Some(sortedData[0].x);
    bigNumberFallback := None;
    if bigNumber.None? {
      bigNumberFallback := FirstNonNull(sortedData);
      bigNumber := if bigNumberFallback.Some? then bigNumberFallback.value.y else None;
      timestamp := if bigNumberFallback.Some? then Some(bigNumberFallback.value.x) else None;
    }
  }

  /** Compares the headline with the point `compareLag`
      places back; only when the guard holds are the percent change and
      the subheader replaced. */
  method CompareWithLag(bigNumber: Option<real>, sortedData: seq<Point>, compareLag: int,
                        compareSuffix: string, subheader: Subheader)
    returns (percentChange: real, formattedSubheader: Subheader)
    ensures percentChange == PercentChange(bigNumber, sortedData, compareLag)
    ensures formattedSubheader == (if CompareApplies(bigNumber, sortedData, compareLag)
                                   then ChangeText(percentChange, compareSuffix)
                                   else subheader)
  {
    percentChange := 0.0;
    formattedSubheader := subheader;
    if compareLag > 0 {
      var compareIndex := compareLag;
      if compareIndex < |sortedData| {
        var compareValue := sortedData[compareIndex].y;
        if bigNumber.Some? && compareValue.Some? && compareValue.value != 0.0 {
          percentChange := (bigNumber.value - compareValue.value) / Abs(compareValue.value);
          formattedSubheader := ChangeText(percentChange, compareSuffix);
        }
      }
    }
  }

  /** The trendline: a copy of the series reversed in place into ascending
      time order, kept only when the trendline is shown. */
  method AscendingTrendLine(sortedData: seq<Point>, show: bool) returns (trendLineData: Option<seq<Point>>)
    ensures trendLineData == (if show then Some(Reversed(sortedData)) else None)
  {
    var buffer := new Point[|sortedData|](i requires 0 <= i < |sortedData| => sortedData[i]);
    assert buffer[..] == sortedData;
    ReverseInPlace(buffer);
    trendLineData := if show then Some(buffer[..]) else None;
  }

  /** The value-selection part of transformProps. The headline is the most
      recent point with a value (the newest point itself when its value is
      set, else the first non-null point `find` meets); the percent change
      and subheader follow the compare guard; the trendline is the series
      in ascending time order, kept only for the panel with its trendline
      switched on. */
  method TransformProps(props: ChartProps) returns (out: PanelProps)
    requires CarriesColumn(RowsOf(props), MetricName(MetricOf(props.formData)))
    ensures var fd, rows := props.formData, RowsOf(props);
            |rows| == 0 ==>
              out.bigNumber.None? && out.timestamp.None? && out.bigNumberFallback.None?
              && out.percentChange == 0.0 && out.className == ""
              && out.trendLineData.None? && out.dateList.None? && out.valueList.None?
              && out.subheader == Configured(fd.subheader.GetOr(""))
    ensures var fd, rows := props.formData, RowsOf(props);
            var s := TimeSeries(rows, MetricName(MetricOf(fd)));
            var head := FirstNonNull(s);
            && out.bigNumber == (if head.Some? then head.value.y else None)
            && out.timestamp == (if head.Some? then Some(head.value.x) else None)
            && out.bigNumberFallback == (if |s| > 0 && s[0].y.None? then head else None)
    ensures var fd, rows := props.formData, RowsOf(props);
            var s := TimeSeries(rows, MetricName(MetricOf(fd)));
            var lag := LagOf(fd.compareLag);
            && out.percentChange == PercentChange(out.bigNumber, s, lag)
            && out.subheader == (if CompareApplies(out.bigNumber, s, lag)
                                 then ChangeText(out.percentChange, fd.compareSuffix.GetOr(""))
                                 else Configured(fd.subheader.GetOr("")))
    ensures out.className == SignClass(out.percentChange)
    ensures var fd, rows := props.formData, RowsOf(props);
            && out.showTrendLine == (fd.vizType == "panel" && fd.showTrendLine)
            && out.trendLineData == (if out.showTrendLine && |rows| > 0
                                     then Some(Reversed(TimeSeries(rows, MetricName(MetricOf(fd)))))
                                     else None)
    ensures out.trendLineData.Some? ==>
              out.dateList == Some(Times(out.trendLineData.value))
              && out.valueList == Some(Values(out.trendLineData.value))
    ensures out.trendLineData.None? ==> out.dateList.None? && out.valueList.None?
    ensures var fd := props.formData;
            out.yAxisFormat == ResolvedFormat(fd.yAxisFormat, MetricOf(fd), props.datasourceMetrics)
  {
    var fd := props.formData;
    var metric := MetricOf(fd);
    var rows := RowsOf(props);
    var metricName := MetricName(metric);
    var compareLag := LagOf(fd.compareLag);
    var supportTrendLine := fd.vizType == "panel";
    var supportAndShowTrendLine := supportTrendLine && fd.showTrendLine;
    var formattedSubheader := Configured(fd.subheader.GetOr(""));

    var trendLineData: Option<seq<Point>> := None;
    var percentChange := 0.0;
    var bigNumber := if |rows| == 0 then None else Column(rows[0], metricName);
    var timestamp := if |rows| == 0 then None else Some(rows[0].time);
    var bigNumberFallback: Option<Point> := None;

    if |rows| > 0 {
      var sortedData := SortByTimeDesc(Project(rows, metricName));
      bigNumber, timestamp, bigNumberFallback := PickHeadline(sortedData);
      percentChange, formattedSubheader :=
        CompareWithLag(bigNumber, sortedData, compareLag, fd.compareSuffix.GetOr(""), formattedSubheader);
      if supportTrendLine {
        trendLineData := AscendingTrendLine(sortedData, supportAndShowTrendLine);
      }
    }

    var className := "";
    if percentChange > 0.0 {
      className := "positive";
    } else if percentChange < 0.0 {
      className := "negative";
    }

    var yAxisFormat := ResolveYAxisFormat(fd.yAxisFormat, metric, props.datasourceMetrics);

    var dateList := if trendLineData.Some? then Some(Times(trendLineData.value)) else None;
    var valueList := if trendLineData.Some? then Some(Values(trendLineData.value)) else None;

    out := PanelProps(bigNumber, timestamp, bigNumberFallback, percentChange, className,
                      formattedSubheader, supportAndShowTrendLine, trendLineData,
                      dateList, valueList, yAxisFormat);
  }

  // ---------------------------------------------------------------------
  // What the selected values mean in terms of the rows.
  // ---------------------------------------------------------------------

  /** The headline is the most recent non-null value: it comes from a row,
      its value is set, and no row with a set value is newer. There is no
      headline exactly when every row's value is null. */
  lemma HeadlineMostRecent(rows: seq<Datum>, name: string)
    requires CarriesColumn(rows, name)
    ensures var head := FirstNonNull(TimeSeries(rows, name));
            && (head.Some? ==>
                  head.value.y.Some?
                  && (exists i :: 0 <= i < |rows| && head.value == Point(rows[i].time, Column(rows[i], name)))
                  && (forall i :: 0 <= i < |rows| && Column(rows[i], name).Some? ==> rows[i].time <= head.value.x))
            && (head.None? <==> forall i :: 0 <= i < |rows| ==> Column(rows[i], name).None?)
  {
    var p := Project(rows, name);
    var s := TimeSeries(rows, name);
    var head := FirstNonNull(s);
    forall q | q in p ensures q in s {
      assert q in multiset(p);
    }
    forall q | q in s ensures q in p {
      assert q in multiset(s);
    }
    if head.Some? {
      FirstNonNullMostRecent(s);
      var k :| 0 <= k < |s| && s[k] == head.value;
      assert head.value in p;
      forall i | 0 <= i < |rows| && Column(rows[i], name).Some?
        ensures rows[i].time <= head.value.x
      {
        assert p[i] in s;
      }
    } else {
      forall i | 0 <= i < |rows| ensures Column(rows[i], name).None? {
        assert p[i] in s;
      }
    }
    if forall i :: 0 <= i < |rows| ==> Column(rows[i], name).None? {
      forall k | 0 <= k < |s| ensures s[k].y.None? {
        assert s[k] in p;
      }
    }
  }

  /** Ties among the newest rows go to input order: the headline point is
      the first row, in the order the query returned them, among those
      stamped with the headline's time whose value is set. */
  lemma HeadlineTieBreak(rows: seq<Datum>, name: string)
    requires CarriesColumn(rows, name)
    requires FirstNonNull(TimeSeries(rows, name)).Some?
    ensures var head := FirstNonNull(TimeSeries(rows, name)).value;
            FirstNonNull(WithTime(Project(rows, name), head.x)) == Some(head)
  {
    var s := TimeSeries(rows, name);
    var head := FirstNonNull(s).value;
    var k :| 0 <= k < |s| && s[k] == head && (forall j :: 0 <= j < k ==> s[j].y.None?);
    FirstNonNullInGroup(s, k);
    SortByTimeDescStable(Project(rows, name), head.x);
  }

  /** The percent change is positive exactly when the guard holds and the
      headline exceeds the compare value, negative exactly when the guard
      holds and it is below, and 0 otherwise. */
  lemma PercentChangeSign(big: Option<real>, s: seq<Point>, lag: int)
    ensures PercentChange(big, s, lag) > 0.0 <==> CompareApplies(big, s, lag) && big.value > s[lag].y.value
    ensures PercentChange(big, s, lag) < 0.0 <==> CompareApplies(big, s, lag) && big.value < s[lag].y.value
    ensures PercentChange(big, s, lag) == 0.0 <==> !CompareApplies(big, s, lag) || big.value == s[lag].y.value
  {
    if CompareApplies(big, s, lag) {
      var diff, d := big.value - s[lag].y.value, Abs(s[lag].y.value);
      assert d > 0.0;
      assert PercentChange(big, s, lag) * d == diff;
    }
  }

  /** The sign class follows the comparison of headline and compare value:
      `positive` when it rose, `negative` when it fell, empty when it did not
      change or no comparison was made. */
  lemma SignClassFollowsChange(big: Option<real>, s: seq<Point>, lag: int)
    ensures SignClass(PercentChange(big, s, lag)) == "positive" <==>
              CompareApplies(big, s, lag) && big.value > s[lag].y.value
    ensures SignClass(PercentChange(big, s, lag)) == "negative" <==>
              CompareApplies(big, s, lag) && big.value < s[lag].y.value
    ensures SignClass(PercentChange(big, s, lag)) == "" <==>
              !CompareApplies(big, s, lag) || big.value == s[lag].y.value
  {
    PercentChangeSign(big, s, lag);
  }

  /** Scaling by a positive factor keeps the sign. */
  lemma ScaleSign(x: real, d: real)
    requires d > 0.0
    ensures x * d >= 0.0 ==> x >= 0.0
    ensures x * d == 0.0 ==> x == 0.0
  {
    if x < 0.0 {
      assert x * d < 0.0;
    }
  }

  /** A non-negative headline can fall by at most 100% against a positive
      compare value, and only to 0 does it fall by exactly 100%; against a
      negative compare value it always shows a rise of at least 100%. */
  lemma PercentChangeBounds(big: Option<real>, s: seq<Point>, lag: int)
    requires CompareApplies(big, s, lag) && big.value >= 0.0
    ensures s[lag].y.value > 0.0 ==>
              PercentChange(big, s, lag) >= -1.0
              && (PercentChange(big, s, lag) == -1.0 <==> big.value == 0.0)
    ensures s[lag].y.value < 0.0 ==> PercentChange(big, s, lag) >= 1.0
  {
    var b, c, change := big.value, s[lag].y.value, PercentChange(big, s, lag);
    assert change * Abs(c) == b - c;
    if c > 0.0 {
      assert (change + 1.0) * c == b;
      ScaleSign(change + 1.0, c);
    } else {
      assert (change - 1.0) * (-c) == b;
      ScaleSign(change - 1.0, -c);
    }
  }

  /** The trendline is oldest first, holds exactly the projected rows, and
      its date and value lists line up point by point. */
  lemma TrendLineAscending(rows: seq<Datum>, name: string)
    requires CarriesColumn(rows, name)
    ensures var t := Reversed(TimeSeries(rows, name));
            && SortedAsc(t)
            && multiset(t) == multiset(Project(rows, name))
            && |Times(t)| == |Values(t)| == |rows|
  {
    ReversedAscending(TimeSeries(rows, name));
  }
}
