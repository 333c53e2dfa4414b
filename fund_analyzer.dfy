/**
 * The fund analyzer: the active funds of a table, a per-fund summary of the
 * key metrics (the last row of each wins), a comparison of several funds, and
 * the choice of display format for a metric's value.
 */
module FundAnalysis {
  import opened Wrappers
  import opened Text
  import opened FundTable

  /** The metrics a fund summary reports, in the order it reports them. */
  const KeyMetrics: seq<string> := ["Net IRR", "Net TVPI", "NAV", "Net DPI"]

  const ComparisonKind: string := "Multi-fund comparison"

  /**
   * `_format_value`, the format family only: "N/A" for a missing value, a
   * percentage for an IRR metric, a multiple for a TVPI or DPI metric, and a
   * thousands-grouped number otherwise. A shown value is the value given.
   */
  function FormatValue(metric: string, value: Option<real>): (d: Display)
    ensures d == NotAvailable <==> value.None?
    ensures d != NotAvailable ==> d.ofValue == value.value
    ensures value.Some? ==> (d.Percent? <==> Contains(metric, "IRR"))
    ensures value.Some? && !Contains(metric, "IRR") ==>
      (d.Multiple? <==> Contains(metric, "TVPI") || Contains(metric, "DPI"))
  {
    if value.None? then NotAvailable
    else if Contains(metric, "IRR") then Percent(value.value)
    else if Contains(metric, "TVPI") || Contains(metric, "DPI") then Multiple(value.value)
    else Thousands(value.value)
  }

  /** The family each key metric gets: IRR as a percentage, TVPI and DPI as a multiple, NAV in thousands. */
  lemma KeyMetricFormats(irr: string, tvpi: string, nav: string, dpi: string, v: real)
    requires irr == "Net IRR" && tvpi == "Net TVPI" && nav == "NAV" && dpi == "Net DPI"
    ensures FormatValue(irr, Some(v)) == Percent(v)
    ensures FormatValue(tvpi, Some(v)) == Multiple(v)
    ensures FormatValue(nav, Some(v)) == Thousands(v)
    ensures FormatValue(dpi, Some(v)) == Multiple(v)
  {
    ContainsAt(irr, "IRR", 4);
    NotContainsMissingChar(tvpi, "IRR", 'R');
    ContainsAt(tvpi, "TVPI", 4);
    NotContainsMissingChar(nav, "IRR", 'I');
    NotContainsMissingChar(nav, "TVPI", 'T');
    NotContainsMissingChar(nav, "DPI", 'D');
    NotContainsMissingChar(dpi, "IRR", 'R');
    NotContainsMissingChar(dpi, "TVPI", 'T');
    ContainsAt(dpi, "DPI", 4);
  }

  /** One metric of a summary: `{'value': ..., 'formatted': ...}`. */
  datatype MetricEntry = MetricEntry(value: real, formatted: Display)

  /** The value of `get_fund_summary`: an error for an unknown fund, or the fund's summary. */
  datatype FundSummary =
    | SummaryError(message: string)
    | Summary(fundName: string, totalRecords: nat, metrics: Dict<MetricEntry>)

  /** The value of `compare_funds`. */
  datatype Comparison = Comparison(comparisonType: string, fundsCompared: seq<string>, data: Dict<FundSummary>)

  /** The entry of a metric the fund has: its latest value, formatted. */
  function MetricEntryOf(t: seq<Row>, f: string, m: string): MetricEntry
    requires HasRow(t, f, m)
  {
    var v := Latest(t, f, m).value;
    MetricEntry(v, FormatValue(m, Some(v)))
  }

  /**
   * The `metrics` dict once the loop has visited the metrics `ms`: exactly
   * the visited metrics the fund has a row for, each with its entry.
   */
  function MetricsOf(t: seq<Row>, f: string, ms: seq<string>): (d: Dict<MetricEntry>)
    ensures d.Valid()
    ensures forall m :: m in d.entries <==> m in ms && HasRow(t, f, m)
    ensures forall m :: m in d.entries ==> HasRow(t, f, m) && d.entries[m] == MetricEntryOf(t, f, m)
  {
    if |ms| == 0 then EmptyDict()
    else
      var p, m := ms[..|ms| - 1], ms[|ms| - 1];
      assert ms == p + [m];
      var d := MetricsOf(t, f, p);
      if HasRow(t, f, m) then d.Insert(m, MetricEntryOf(t, f, m)) else d
  }

  /** `get_fund_summary` against the list of active funds `funds`. */
  function SummaryOf(t: seq<Row>, funds: seq<string>, name: string): FundSummary
  {
    if name !in funds then SummaryError("Fondo " + name + " no encontrado")
    else Summary(name, CountFund(t, name), MetricsOf(t, name, KeyMetrics))
  }

  /**
   * The `data` dict once the loop has visited the names `names`: exactly the
   * visited names that are active funds, each with its summary.
   */
  function ComparisonData(t: seq<Row>, funds: seq<string>, names: seq<string>): (d: Dict<FundSummary>)
    ensures d.Valid()
    ensures forall n :: n in d.entries <==> n in names && n in funds
    ensures forall n :: n in d.entries ==> d.entries[n] == SummaryOf(t, funds, n)
  {
    if |names| == 0 then EmptyDict()
    else
      var p, n := names[..|names| - 1], names[|names| - 1];
      assert names == p + [n];
      var d := ComparisonData(t, funds, p);
      if n in funds then d.Insert(n, SummaryOf(t, funds, n)) else d
  }

  /**
   * `compare_funds` against the list of active funds `funds`: the given list
   * unchanged, and exactly the given names that are active funds, each with
   * its summary, which is never an error; unknown names are skipped.
   */
  function ComparisonOf(t: seq<Row>, funds: seq<string>, names: seq<string>): (c: Comparison)
    ensures c.comparisonType == "Multi-fund comparison"
    ensures c.fundsCompared == names
    ensures c.data.Valid()
    ensures forall n :: n in c.data.entries <==> n in names && n in funds
    ensures forall n :: n in c.data.entries ==> c.data.entries[n] == SummaryOf(t, funds, n) && c.data.entries[n].Summary?
  {
    Comparison(ComparisonKind, names, ComparisonData(t, funds, names))
  }

  /** `FundAnalyzer`: a table and its active funds, fixed at construction. */
  class FundAnalyzer {
    const data: seq<Row>
    const funds: seq<string>

    /** `__init__` with `_get_active_funds`: the distinct funds other than "Total", in first-occurrence order. */
    constructor (data: seq<Row>)
      ensures this.data == data
      ensures funds == ActiveFunds(data)
    {
      this.data := data;
      this.funds := ActiveFunds(data);
    }

    /** `get_fund_summary`: the loop over the key metrics that fills `metrics`. */
    method GetFundSummary(fundName: string) returns (r: FundSummary)
      ensures r == SummaryOf(data, funds, fundName)
    {
      if fundName !in funds {
        return SummaryError("Fondo " + fundName + " no encontrado");
      }
      var metrics: Dict<MetricEntry> := EmptyDict();
      var i := 0;
      while i < |KeyMetrics|
        invariant 0 <= i <= |KeyMetrics|
        invariant metrics == MetricsOf(data, fundName, KeyMetrics[..i])
      {
        var metric := KeyMetrics[i];
        var latest := Latest(data, fundName, metric);
        if latest.Some? {
          metrics := metrics.Insert(metric, MetricEntry(latest.value, FormatValue(metric, latest)));
        }
        assert KeyMetrics[..i + 1][..i] == KeyMetrics[..i];
        i := i + 1;
      }
      assert KeyMetrics[..|KeyMetrics|] == KeyMetrics;
      r := Summary(fundName, CountFund(data, fundName), metrics);
    }

    /** `compare_funds`: the loop over the given names that fills `comparison`, skipping unknown ones. */
    method CompareFunds(fundList: seq<string>) returns (r: Comparison)
      ensures r == ComparisonOf(data, funds, fundList)
    {
      var comparison: Dict<FundSummary> := EmptyDict();
      var i := 0;
      while i < |fundList|
        invariant 0 <= i <= |fundList|
        invariant comparison == ComparisonData(data, funds, fundList[..i])
      {
        var fund := fundList[i];
        if fund in funds {
          var summary := GetFundSummary(fund);
          comparison := comparison.Insert(fund, summary);
        }
        assert fundList[..i + 1][..i] == fundList[..i];
        i := i + 1;
      }
      assert fundList[..|fundList|] == fundList;
      r := Comparison(ComparisonKind, fundList, comparison);
    }
  }

  /**
   * What a summary reports: an error exactly for a name that is not an active
   * fund; otherwise the name, the number of its rows, and exactly the key
   * metrics it has a row for, each with the value of its last such row,
   * formatted (never as "N/A").
   */
  lemma SummarySpec(t: seq<Row>, name: string)
    ensures var r := SummaryOf(t, ActiveFunds(t), name);
      && (r.SummaryError? <==> name == Total || forall i :: 0 <= i < |t| ==> t[i].fund != name)
      && (r.SummaryError? ==> r.message == "Fondo " + name + " no encontrado")
      && (r.Summary? ==>
            && r.fundName == name
            && r.totalRecords == |set i | 0 <= i < |t| && t[i].fund == name|
            && r.metrics.Valid()
            && (forall m :: m in r.metrics.entries ==> m in KeyMetrics)
            && (forall m :: m in r.metrics.entries <==> m in KeyMetrics && HasRow(t, name, m))
            && (forall m, i :: m in r.metrics.entries && IsLastMatch(t, i, name, m) ==> r.metrics.entries[m].value == t[i].value)
            && (forall m :: m in r.metrics.entries ==>
                  r.metrics.entries[m].formatted == FormatValue(m, Some(r.metrics.entries[m].value))
                  && r.metrics.entries[m].formatted != NotAvailable))
  {
    ActiveFundsMembership(t, name);
    var r := SummaryOf(t, ActiveFunds(t), name);
    if r.Summary? {
      forall m, i | m in r.metrics.entries && IsLastMatch(t, i, name, m)
        ensures r.metrics.entries[m].value == t[i].value
      {
        LatestIsLastRow(t, name, m, i);
      }
    }
  }
}
