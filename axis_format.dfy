/** The y-axis format lookup of transformProps: a format
    set on the form wins; otherwise the `d3format` of the datasource metric
    the chart shows, the last one listed when several match. */
module AxisFormat {
  import opened Wrappers

  /** `formData.metric`: the name of a saved metric, or an ad-hoc metric
      object known by its label. */
  datatype Metric = Saved(name: string) | Adhoc(adhocLabel: string)

  /** The column the metric's values come in: a saved metric's own name, or
      an ad-hoc metric's label. */
  function MetricName(m: Metric): string {
    match m
    case Saved(name) => name
    case Adhoc(adhocLabel) => adhocLabel
  }

  /** One entry of `datasource.metrics`. */
  datatype MetricEntry = MetricEntry(metricName: string, d3format: Option<string>)

  /** JavaScript truthiness of an optional string: set and not empty. */
  predicate Truthy(s: Option<string>) {
    s.Some? && s.value != ""
  }

  /** The test inside the `forEach`. `metric_name === metric` is a strict
      comparison, so an ad-hoc metric object never equals an entry's name. */
  predicate Supplies(e: MetricEntry, m: Metric) {
    m.Saved? && e.metricName == m.name && Truthy(e.d3format)
  }

  /** The format of the last entry of `es` that supplies one for `m`, or
      `None` when no entry does. */
  function LastSupplied(es: seq<MetricEntry>, m: Metric): (r: Option<string>)
    ensures r.Some? ==> exists i :: 0 <= i < |es| && Supplies(es[i], m) && es[i].d3format == r
                          && (forall j :: i < j < |es| ==> !Supplies(es[j], m))
    ensures r.Some? ==> Truthy(r)
    ensures r.None? <==> forall i :: 0 <= i < |es| ==> !Supplies(es[i], m)
  {
    if |es| == 0 then None
    else if Supplies(es[|es| - 1], m) then es[|es| - 1].d3format
    else
      var init := es[..|es| - 1];
      var r := LastSupplied(init, m);
      assert r.Some? ==> exists i :: 0 <= i < |es| && Supplies(es[i], m) && es[i].d3format == r
                           && (forall j :: i < j < |es| ==> !Supplies(es[j], m)) by {
        if r.Some? {
          var i :| 0 <= i < |init| && Supplies(init[i], m) && init[i].d3format == r
                   && (forall j :: i < j < |init| ==> !Supplies(init[j], m));
          assert es[i] == init[i];
          forall j | i < j < |es| ensures !Supplies(es[j], m) {
            if j < |init| { assert es[j] == init[j]; }
          }
        }
      }
      assert r.None? ==> forall i :: 0 <= i < |es| ==> !Supplies(es[i], m) by {
        if r.None? {
          forall i | 0 <= i < |es| ensures !Supplies(es[i], m) {
            if i < |init| { assert es[i] == init[i]; }
          }
        }
      }
      r
  }

  /** The axis format transformProps hands on: the configured one when it
      is truthy or when there is no metric list, else the last supplied
      format, else the configured value unchanged. */
  function ResolvedFormat(configured: Option<string>, m: Metric, metrics: Option<seq<MetricEntry>>): Option<string> {
    if Truthy(configured) || metrics.None? then configured
    else
      var found := LastSupplied(metrics.value, m);
      if found.Some? then found else configured
  }

  /** The `forEach` loop: every matching entry overwrites the format, so
      the last one wins. */
  method ResolveYAxisFormat(configured: Option<string>, m: Metric, metrics: Option<seq<MetricEntry>>)
    returns (fmt: Option<string>)
    ensures fmt == ResolvedFormat(configured, m, metrics)
    ensures Truthy(configured) ==> fmt == configured
    ensures fmt != configured ==> Truthy(fmt) && metrics.Some?
                                  && exists i :: 0 <= i < |metrics.value| && Supplies(metrics.value[i], m)
                                                 && metrics.value[i].d3format == fmt
  {
    fmt := configured;
    if !Truthy(configured) && metrics.Some? {
      var es := metrics.value;
      for i := 0 to |es|
        invariant fmt == (if LastSupplied(es[..i], m).Some? then LastSupplied(es[..i], m) else configured)
      {
        assert es[..i + 1][..i] == es[..i];
        if Supplies(es[i], m) {
          fmt := es[i].d3format;
        }
      }
      assert es[..|es|] == es;
    }
  }

  /** An ad-hoc metric never picks up a datasource format. */
  lemma AdhocKeepsConfigured(configured: Option<string>, adhocLabel: string, metrics: Option<seq<MetricEntry>>)
    ensures ResolvedFormat(configured, Adhoc(adhocLabel), metrics) == configured
  {
  }
}
