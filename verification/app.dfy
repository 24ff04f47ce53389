/** The `ask` flow of the dashboard (frontend/src/App.jsx): the blank
    prompt guard, the descriptors and integer metrics computed from the
    returned rows, and the chart-state branch driven by the reply's
    `chartConfig`, `aiPowered` and `chartSpec`.

    A reply body is the handful of properties `ask` destructures; a
    property the body lacks is None. A failed request and a body without
    `data` end the same way (in the `catch`, before any state is set), so
    both are a body whose `data` is None. */
module App {

  import opened Wrappers
  import opened Json
  import Text
  import opened Seqs
  import opened FieldInference
  import opened ChartUtils
  import SqlCompiler
  import NlqServer
  import DemoServer

  /** `if (!queryText.trim()) return;` */
  predicate ShouldAsk(q: string) {
    Text.Trim(q) != ""
  }

  /** A prompt is sent exactly when it holds a character that is not
      white space. */
  lemma BlankPromptIgnored(q: string)
    ensures ShouldAsk(q) <==> exists i :: 0 <= i < |q| && !Text.IsJsSpace(q[i])
  {
    Text.TrimEmptyIffAllSpace(q);
  }

  /** `item.BaseProductCode`: an object's own property; no other row
      value has one. */
  function ProductCode(row: Json): Option<Json> {
    if row.JObj? then Get(row.entries, "BaseProductCode") else None
  }

  /** A `Set` holds primitives by value but objects and arrays by
      reference, and every object `JSON.parse` builds is a new one. */
  predicate ByValue(c: Option<Json>) {
    c.None? || !(c.value.JArr? || c.value.JObj?)
  }

  /** The codes a `Set` compares by value, in order: each by-value code
      as often as it occurs, and no other code. */
  function ValueCodes(cs: seq<Option<Json>>): (r: seq<Option<Json>>)
    ensures |r| <= |cs|
    ensures forall i :: 0 <= i < |r| ==> r[i] in cs && ByValue(r[i])
    ensures forall i :: 0 <= i < |cs| && ByValue(cs[i]) ==> cs[i] in r
    ensures forall c :: multiset(r)[c] == if ByValue(c) then multiset(cs)[c] else 0
  {
    if |cs| == 0 then []
    else
      var rest := ValueCodes(cs[1..]);
      assert forall i :: 1 <= i < |cs| ==> cs[i] == cs[1..][i - 1];
      assert cs == [cs[0]] + cs[1..];
      if ByValue(cs[0]) then [cs[0]] + rest else rest
  }

  /** Integer parts of the dashboard metrics. The averages are left out. */
  datatype Metrics = Metrics(totalShipments: nat, totalProducts: nat)

  const InitialMetrics: Metrics := Metrics(0, 0)

  /** No update for missing or empty data; a null row makes the first
      `item.FlowRate` throw. */
  datatype MetricsUpdate = NoUpdate | Update(metrics: Metrics) | Throws

  function Codes(data: seq<Json>): (cs: seq<Option<Json>>)
    ensures |cs| == |data| && forall i :: 0 <= i < |data| ==> cs[i] == ProductCode(data[i])
  {
    seq(|data|, i requires 0 <= i < |data| => ProductCode(data[i]))
  }

  /** `calculateMetrics(data)`. */
  function CalculateMetrics(data: Option<seq<Json>>): (r: MetricsUpdate)
    ensures r.NoUpdate? <==> data.None? || |data.value| == 0
    ensures r.Throws? <==> data.Some? && exists i :: 0 <= i < |data.value| && data.value[i].JNull?
    ensures r.Update? ==>
              var cs := Codes(data.value);
              && r.metrics.totalShipments == |data.value|
              && r.metrics.totalProducts
                 == |set c | c in cs && ByValue(c)| + (|cs| - |ValueCodes(cs)|)
              && r.metrics.totalProducts <= r.metrics.totalShipments
  {
    if data.None? || |data.value| == 0 then NoUpdate
    else if exists i :: 0 <= i < |data.value| && data.value[i].JNull? then Throws
    else
      var cs := Codes(data.value);
      var vs := ValueCodes(cs);
      DedupCountsDistinct(vs);
      assert (set c | c in vs) == (set c | c in cs && ByValue(c));
      Update(Metrics(|data.value|, |Dedup(vs)| + (|cs| - |vs|)))
  }

  /** Rows whose codes are all strings, as the mock rows' are: the
      product count is the number of distinct codes. */
  lemma StringCodesCountDistinct(data: seq<Json>)
    requires |data| > 0
    requires forall i :: 0 <= i < |data| ==> ProductCode(data[i]).Some? && ProductCode(data[i]).value.JStr?
    ensures CalculateMetrics(Some(data)).Update?
    ensures CalculateMetrics(Some(data)).metrics.totalProducts == |set i | 0 <= i < |data| :: ProductCode(data[i])|
  {
    var cs := Codes(data);
    assert forall i :: 0 <= i < |data| ==> !data[i].JNull?;
    AllByValue(cs);
    StringCodeSet(data);
  }

  /** The by-value codes of rows with string codes are the rows' codes. */
  lemma StringCodeSet(data: seq<Json>)
    requires forall i :: 0 <= i < |data| ==> ProductCode(data[i]).Some? && ProductCode(data[i]).value.JStr?
    ensures (set c | c in Codes(data) && ByValue(c)) == (set i | 0 <= i < |data| :: ProductCode(data[i]))
  {
    var cs := Codes(data);
    forall c | c in cs ensures c in (set i | 0 <= i < |data| :: ProductCode(data[i])) {
      var i :| 0 <= i < |cs| && cs[i] == c;
      assert ProductCode(data[i]) == c;
    }
  }

  /** When every code is compared by value, the filter keeps them all. */
  lemma {:induction false} AllByValue(cs: seq<Option<Json>>)
    requires forall i :: 0 <= i < |cs| ==> ByValue(cs[i])
    ensures ValueCodes(cs) == cs
  {
    if |cs| > 0 {
      AllByValue(cs[1..]);
      assert cs == [cs[0]] + cs[1..];
    }
  }

  /** Object-valued codes never coincide: two rows carrying equal
      objects count as two products. */
  lemma ObjectCodesCountSeparately(a: Json, b: Json, o: seq<(string, Json)>)
    requires a == JObj([("BaseProductCode", JObj(o))]) && b == a
    ensures CalculateMetrics(Some([a, b])) == Update(Metrics(2, 2))
  {
    var cs := Codes([a, b]);
    KeyIndexAt(a.entries, "BaseProductCode", 0);
    assert cs == [Some(JObj(o)), Some(JObj(o))];
    assert ValueCodes(cs[1..]) == [];
    assert (set c | c in cs && ByValue(c)) == {};
  }

  /** The chart part of the state. */
  datatype ChartState = ChartState(
    autoSpec: Option<seq<ChartSpec>>,
    vegaSpec: Option<Json>,
    showVegaChart: bool,
    aiGenerated: bool,
    currentChartConfig: Option<Json>,
    activeView: string)

  const DashboardView: string := "dashboard"
  const AnalyticsView: string := "analytics"

  const InitialChart: ChartState := ChartState(None, None, false, false, None, DashboardView)

  /** The chart state with every chart cleared and the view kept. */
  function Cleared(st: ChartState): ChartState {
    ChartState(None, None, false, false, None, st.activeView)
  }

  /** A shown Vega-Lite chart is an AI chart with a spec, and an AI chart
      has a configuration. */
  predicate Consistent(st: ChartState) {
    && (st.showVegaChart ==> st.aiGenerated && OptTruthy(st.vegaSpec))
    && (st.aiGenerated ==> OptTruthy(st.currentChartConfig))
  }

  /** The chart-state branch and the view switch after it. */
  function UpdateChart(st: ChartState, chartSpec: Option<Json>, chartConfig: Option<Json>,
                       aiPowered: Option<Json>, fields: seq<FieldDescriptor>): (r: ChartState)
    ensures !(OptTruthy(chartConfig) && OptTruthy(aiPowered)) ==>
              r.(activeView := st.activeView) == Cleared(st)
    ensures OptTruthy(chartConfig) && OptTruthy(aiPowered) ==>
              && r.currentChartConfig == chartConfig
              && (OptTruthy(chartSpec) ==>
                    r.vegaSpec == chartSpec && r.showVegaChart && r.aiGenerated && r.autoSpec == st.autoSpec)
              && (!OptTruthy(chartSpec) ==> r.vegaSpec == st.vegaSpec)
              && (!OptTruthy(chartSpec) && CreateChartFromAI(chartConfig.value, fields).Some? ==>
                    r.autoSpec == CreateChartFromAI(chartConfig.value, fields)
                    && !r.showVegaChart && r.aiGenerated)
              && (!OptTruthy(chartSpec) && CreateChartFromAI(chartConfig.value, fields).None? ==>
                    r == st.(currentChartConfig := chartConfig,
                             activeView := r.activeView))
    ensures r.activeView == (if OptTruthy(chartConfig) then AnalyticsView else st.activeView)
  {
    var charts :=
      if OptTruthy(chartConfig) && OptTruthy(aiPowered) then
        var st1 := st.(currentChartConfig := chartConfig);
        if OptTruthy(chartSpec) then
          st1.(vegaSpec := chartSpec, showVegaChart := true, aiGenerated := true)
        else
          var gw := CreateChartFromAI(chartConfig.value, fields);
          if gw.Some? then st1.(autoSpec := gw, showVegaChart := false, aiGenerated := true) else st1
      else
        Cleared(st);
    if OptTruthy(chartConfig) then charts.(activeView := AnalyticsView) else charts
  }

  /** The chart state's invariant holds initially and every update keeps it. */
  lemma UpdateChartKeepsConsistent(st: ChartState, chartSpec: Option<Json>, chartConfig: Option<Json>,
                                   aiPowered: Option<Json>, fields: seq<FieldDescriptor>)
    requires Consistent(st)
    ensures Consistent(InitialChart)
    ensures Consistent(UpdateChart(st, chartSpec, chartConfig, aiPowered, fields))
  {
  }

  /** A configuration with `aiPowered` falsy still switches to the
      analytics view, although it clears every chart. */
  lemma ConfigWithoutAiClearsButSwitches(st: ChartState, chartSpec: Option<Json>, chartConfig: Option<Json>,
                                         aiPowered: Option<Json>, fields: seq<FieldDescriptor>)
    requires OptTruthy(chartConfig) && !OptTruthy(aiPowered)
    ensures UpdateChart(st, chartSpec, chartConfig, aiPowered, fields) == Cleared(st).(activeView := AnalyticsView)
  {
  }

  /** The properties of a reply body `ask` reads. */
  datatype ReplyBody = ReplyBody(
    data: Option<seq<Json>>,
    chartSpec: Option<Json>,
    chartConfig: Option<Json>,
    aiPowered: Option<Json>)

  datatype AppModel = AppModel(
    rows: seq<Json>,
    fields: seq<FieldDescriptor>,
    metrics: Metrics,
    chart: ChartState)

  const InitialApp: AppModel := AppModel([], [], InitialMetrics, InitialChart)

  /** `ask(queryText)` once the reply is in. Without `data` the first
      `data[0]` throws before any state is set; a null row makes the
      metrics throw after the rows and fields are set, skipping the chart
      branch. */
  function Ask(app: AppModel, q: string, body: ReplyBody): (r: AppModel)
    ensures !ShouldAsk(q) || body.data.None? ==> r == app
    ensures ShouldAsk(q) && body.data.Some? ==>
              && r.rows == body.data.value
              && r.fields == BuildFields(body.data.value)
    ensures ShouldAsk(q) && body.data.Some? ==>
              match CalculateMetrics(body.data)
              case Throws => r.metrics == app.metrics && r.chart == app.chart
              case NoUpdate => r.metrics == app.metrics
              case Update(m) => r.metrics == m
    ensures ShouldAsk(q) && body.data.Some? && !CalculateMetrics(body.data).Throws? ==>
              r.chart == UpdateChart(app.chart, body.chartSpec, body.chartConfig, body.aiPowered,
                                     BuildFields(body.data.value))
  {
    if !ShouldAsk(q) || body.data.None? then app
    else
      var data := body.data.value;
      var f := BuildFields(data);
      var app1 := app.(rows := data, fields := f);
      match CalculateMetrics(body.data)
      case Throws => app1
      case NoUpdate => app1.(chart := UpdateChart(app.chart, body.chartSpec, body.chartConfig, body.aiPowered, f))
      case Update(m) => app1.(metrics := m, chart := UpdateChart(app.chart, body.chartSpec, body.chartConfig, body.aiPowered, f))
  }

  /** What `ask` reads of the query server's reply: a rejection has no
      `data`, and no reply carries `chartSpec`, `chartConfig` or
      `aiPowered`; its `suggestedVegaLite` is not read at all. */
  function NlqBody(r: NlqServer.Response): (b: ReplyBody)
    ensures b.data.Some? <==> r.Reply?
    ensures r.Reply? ==> b.data == Some(r.data)
    ensures b.chartSpec.None? && b.chartConfig.None? && b.aiPowered.None?
  {
    match r
    case BadRequest(_) => ReplyBody(None, None, None, None)
    case Reply(data, _, _) => ReplyBody(Some(data), None, None, None)
  }

  /** What `ask` reads of the demo server's reply. */
  function DemoBody(r: DemoServer.DemoReply): (b: ReplyBody)
    ensures b == ReplyBody(Some(r.data), None, None, None)
  {
    ReplyBody(Some(r.data), None, None, None)
  }

  /** Against the query server, a rejected specification leaves the whole
      state as it was, and an accepted one shows its rows with every chart
      cleared and the view kept: neither the server's `suggestedVegaLite`
      nor any chart reaches the state. */
  lemma QueryServerNeverDrivesCharts(d: SqlCompiler.Dialect, app: AppModel, q: string, parsed: Option<Json>, rows: seq<Json>)
    requires ShouldAsk(q)
    requires forall i :: 0 <= i < |rows| ==> !rows[i].JNull?
    ensures var reply := NlqServer.HandleNlq(d, parsed, rows);
            var r := Ask(app, q, NlqBody(reply));
            && (reply.BadRequest? ==> r == app)
            && (reply.Reply? ==> r.rows == reply.data && r.chart == Cleared(app.chart))
  {
    var reply := NlqServer.HandleNlq(d, parsed, rows);
    var body := NlqBody(reply);
    if reply.Reply? {
      var data := reply.data;
      assert data <= rows;
      assert body == ReplyBody(Some(data), None, None, None);
      NoNullRowsInPrefix(data, rows);
      RowsOnlyClearCharts(app, q, data);
    } else {
      assert body.data.None?;
    }
  }

  lemma NoNullRowsInPrefix(data: seq<Json>, rows: seq<Json>)
    requires data <= rows
    requires forall i :: 0 <= i < |rows| ==> !rows[i].JNull?
    ensures forall i :: 0 <= i < |data| ==> !data[i].JNull?
  {
    assert forall i :: 0 <= i < |data| ==> data[i] == rows[i];
  }

  /** A body with rows and nothing else: the rows are shown and every
      chart is cleared. */
  lemma RowsOnlyClearCharts(app: AppModel, q: string, data: seq<Json>)
    requires ShouldAsk(q)
    requires forall i :: 0 <= i < |data| ==> !data[i].JNull?
    ensures var r := Ask(app, q, ReplyBody(Some(data), None, None, None));
            r.rows == data && r.fields == BuildFields(data) && r.chart == Cleared(app.chart)
  {
  }

  /** Against the demo server, whatever the model did, the dashboard shows
      the pre-aggregated rows and no chart. */
  lemma DemoServerNeverDrivesCharts(app: AppModel, q: string, o: DemoServer.AdapterOutcome, processed: seq<Json>)
    requires ShouldAsk(q)
    requires forall i :: 0 <= i < |processed| ==> !processed[i].JNull?
    ensures var r := Ask(app, q, DemoBody(DemoServer.HandleDemo(o, processed)));
            r.rows == processed && r.fields == BuildFields(processed) && r.chart == Cleared(app.chart)
  {
    RowsOnlyClearCharts(app, q, processed);
  }
}
