/** `createChartFromAI` (frontend/src/utils/chartUtils.js): a chart
    configuration naming a chart type and two fields becomes a one-chart
    Graphic Walker specification whose encoding roles depend on the chart
    type and on the fields' analytic types.

    The configuration arrives as a JSON value and is destructured the way
    JavaScript does it: a property an object lacks, or any property of a
    non-object, is `undefined` (None). */
module ChartUtils {

  import opened Wrappers
  import opened Json
  import opened FieldInference
  import opened Seqs

  /** `const { chartType, xField, yField, title } = chartConfig`. */
  datatype ChartConfig = ChartConfig(
    chartType: Option<Json>,
    xField: Option<Json>,
    yField: Option<Json>,
    title: Option<Json>)

  function ConfigOf(v: Json): (c: ChartConfig)
    ensures v.JObj? ==> c == ChartConfig(Get(v.entries, "chartType"), Get(v.entries, "xField"),
                                         Get(v.entries, "yField"), Get(v.entries, "title"))
    ensures !v.JObj? ==> c == ChartConfig(None, None, None, None)
  {
    if v.JObj? then
      ChartConfig(Get(v.entries, "chartType"), Get(v.entries, "xField"),
                  Get(v.entries, "yField"), Get(v.entries, "title"))
    else ChartConfig(None, None, None, None)
  }

  /** The encoding roles the builder fills; the ten others (opacity,
      size, shape, radius, longitude, latitude, geoId, details, filters,
      text) stay empty for every chart type. */
  datatype Encodings = Encodings(
    dimensions: seq<string>,
    measures: seq<string>,
    rows: seq<string>,
    columns: seq<string>,
    color: seq<string>,
    theta: seq<string>)

  /** One chart. `geom` is the single entry of `config.geoms`; None is an
      `undefined` chart type carried through. */
  datatype ChartSpec = ChartSpec(visId: string, name: Json, encodings: Encodings, geom: Option<Json>)

  const ChartId: string := "gw_chart_1"
  const DefaultChartName: string := "AI Generated Chart"

  /** `fields.find((f) => f.fid === key)`: strict equality, so only a
      string key can match. */
  function FindField(fields: seq<FieldDescriptor>, key: Option<Json>): (r: Option<FieldDescriptor>)
    ensures r.Some? ==> key == Some(JStr(r.value.fid))
    ensures r.Some? ==> exists i :: 0 <= i < |fields| && fields[i] == r.value
                                    && forall j :: 0 <= j < i ==> key != Some(JStr(fields[j].fid))
    ensures r.None? <==> forall i :: 0 <= i < |fields| ==> key != Some(JStr(fields[i].fid))
  {
    if |fields| == 0 then None
    else if key == Some(JStr(fields[0].fid)) then Some(fields[0])
    else
      var r := FindField(fields[1..], key);
      if r.Some? then
        ghost var i :| 0 <= i < |fields[1..]| && fields[1..][i] == r.value
                       && forall j :: 0 <= j < i ==> key != Some(JStr(fields[1..][j].fid));
        assert fields[i + 1] == r.value;
        assert forall j :: 0 <= j < i + 1 ==> key != Some(JStr(fields[j].fid)) by {
          forall j | 0 <= j < i + 1 ensures key != Some(JStr(fields[j].fid)) {
            if j > 0 { assert fields[j] == fields[1..][j - 1]; }
          }
        }
        r
      else
        assert forall i :: 0 <= i < |fields| ==> key != Some(JStr(fields[i].fid)) by {
          forall i | 0 <= i < |fields| ensures key != Some(JStr(fields[i].fid)) {
            if i > 0 { assert fields[i] == fields[1..][i - 1]; }
          }
        }
        r
  }

  predicate IsType(chartType: Option<Json>, name: string) {
    chartType == Some(JStr(name))
  }

  /** The role lists after the pushes for each chart type, before the
      dimensions and measures are deduplicated. */
  function Pushes(chartType: Option<Json>, x: FieldDescriptor, y: FieldDescriptor): Encodings {
    if IsType(chartType, "bar") then BarPush(x, y)
    else if IsType(chartType, "scatter") || IsType(chartType, "point") then ScatterPush(x, y)
    else if IsType(chartType, "line") then LinePush(x, y)
    else if IsType(chartType, "pie") then PiePush(x, y)
    else Encodings([], [], [], [], [], [])
  }

  /** Bar: x in columns, y in rows, each also a dimension or a measure by
      its own analytic type. */
  function BarPush(x: FieldDescriptor, y: FieldDescriptor): Encodings {
    var dims :=
      if x.analyticType == Dimension then (if y.analyticType == Measure then [x.fid] else [x.fid, y.fid])
      else (if y.analyticType == Measure then [] else [y.fid]);
    var measures :=
      if x.analyticType == Dimension then (if y.analyticType == Measure then [y.fid] else [])
      else (if y.analyticType == Measure then [x.fid, y.fid] else [x.fid]);
    Encodings(dims, measures, [y.fid], [x.fid], [], [])
  }

  /** Scatter and point: both measures, x in columns, y in rows. */
  function ScatterPush(x: FieldDescriptor, y: FieldDescriptor): Encodings {
    Encodings([], [x.fid, y.fid], [y.fid], [x.fid], [], [])
  }

  /** Line: x as for a bar; y only when it is a measure. */
  function LinePush(x: FieldDescriptor, y: FieldDescriptor): Encodings {
    var measures :=
      if x.analyticType == Dimension then (if y.analyticType == Measure then [y.fid] else [])
      else (if y.analyticType == Measure then [x.fid, y.fid] else [x.fid]);
    Encodings(
      if x.analyticType == Dimension then [x.fid] else [],
      measures,
      if y.analyticType == Measure then [y.fid] else [],
      [x.fid], [], [])
  }

  /** Pie: x the dimension and colour, y the measure and angle. */
  function PiePush(x: FieldDescriptor, y: FieldDescriptor): Encodings {
    Encodings([x.fid], [y.fid], [], [], [x.fid], [y.fid])
  }

  /** `[...new Set(...)]` on the dimensions and the measures only. */
  function Deduplicated(e: Encodings): (r: Encodings)
    ensures r.rows == e.rows && r.columns == e.columns && r.color == e.color && r.theta == e.theta
    ensures NoDups(r.dimensions) && NoDups(r.measures)
  {
    e.(dimensions := Dedup(e.dimensions), measures := Dedup(e.measures))
  }

  /** `geoms: [chartType === "scatter" ? "point" : chartType === "pie" ? "arc" : chartType]`. */
  function Geom(chartType: Option<Json>): Option<Json> {
    if IsType(chartType, "scatter") then Some(JStr("point"))
    else if IsType(chartType, "pie") then Some(JStr("arc"))
    else chartType
  }

  /** `createChartFromAI(chartConfig, fields)`. */
  function CreateChartFromAI(config: Json, fields: seq<FieldDescriptor>): (r: Option<seq<ChartSpec>>)
    ensures r.None? <==> !Truthy(config)
                         || FindField(fields, ConfigOf(config).xField).None?
                         || FindField(fields, ConfigOf(config).yField).None?
    ensures r.Some? ==>
              var c := ConfigOf(config);
              && |r.value| == 1
              && r.value[0].visId == ChartId
              && r.value[0].name == (if OptTruthy(c.title) then c.title.value else JStr(DefaultChartName))
              && r.value[0].geom == Geom(c.chartType)
              && NoDups(r.value[0].encodings.dimensions)
              && NoDups(r.value[0].encodings.measures)
  {
    if !Truthy(config) then None
    else
      var c := ConfigOf(config);
      var xm := FindField(fields, c.xField);
      var ym := FindField(fields, c.yField);
      if xm.None? || ym.None? then None
      else
        var name := if OptTruthy(c.title) then c.title.value else JStr(DefaultChartName);
        Some([ChartSpec(ChartId, name, Deduplicated(Pushes(c.chartType, xm.value, ym.value)), Geom(c.chartType))])
  }

  /** The descriptors the two configured fields resolve to. */
  function XMeta(config: Json, fields: seq<FieldDescriptor>): Option<FieldDescriptor> {
    FindField(fields, ConfigOf(config).xField)
  }

  function YMeta(config: Json, fields: seq<FieldDescriptor>): Option<FieldDescriptor> {
    FindField(fields, ConfigOf(config).yField)
  }

  /** The same field name resolves to the same descriptor. */
  lemma SameNameSameField(config: Json, fields: seq<FieldDescriptor>)
    requires XMeta(config, fields).Some? && YMeta(config, fields).Some?
    ensures XMeta(config, fields).value.fid == YMeta(config, fields).value.fid
            ==> XMeta(config, fields) == YMeta(config, fields)
  {
  }

  /** Scenario: a configuration naming a field the data does not have
      gives no chart, whatever the chart type. */
  lemma UnknownFieldGivesNull(config: Json, fields: seq<FieldDescriptor>, name: string)
    requires config.JObj? && Get(config.entries, "xField") == Some(JStr(name))
    requires forall i :: 0 <= i < |fields| ==> fields[i].fid != name
    ensures CreateChartFromAI(config, fields).None?
  {
  }

  /** Bar charts: x in columns, y in rows; each field is a dimension or a
      measure according to its own analytic type. */
  lemma BarRoles(config: Json, fields: seq<FieldDescriptor>)
    requires CreateChartFromAI(config, fields).Some?
    requires IsType(ConfigOf(config).chartType, "bar")
    ensures var e := CreateChartFromAI(config, fields).value[0].encodings;
            var x := XMeta(config, fields).value;
            var y := YMeta(config, fields).value;
            && e.columns == [x.fid] && e.rows == [y.fid]
            && e.color == [] && e.theta == []
            && (x.fid in e.dimensions <==> x.analyticType == Dimension)
            && (x.fid in e.measures <==> x.analyticType == Measure)
            && (y.fid in e.measures <==> y.analyticType == Measure)
            && (y.fid in e.dimensions <==> y.analyticType == Dimension)
            && |e.dimensions| + |e.measures| == (if x.fid == y.fid then 1 else 2)
    ensures CreateChartFromAI(config, fields).value[0].geom == Some(JStr("bar"))
  {
    var x, y := XMeta(config, fields).value, YMeta(config, fields).value;
    ChartEncodings(config, fields);
    SameNameSameField(config, fields);
    BarPlacement(x, y);
  }

  /** Bar charts list two distinct fields of one analytic type x first,
      then y. */
  lemma BarOrder(config: Json, fields: seq<FieldDescriptor>)
    requires CreateChartFromAI(config, fields).Some?
    requires IsType(ConfigOf(config).chartType, "bar")
    ensures var e := CreateChartFromAI(config, fields).value[0].encodings;
            var x := XMeta(config, fields).value;
            var y := YMeta(config, fields).value;
            && (x.fid != y.fid && x.analyticType == Dimension && y.analyticType == Dimension ==> e.dimensions == [x.fid, y.fid])
            && (x.fid != y.fid && x.analyticType == Measure && y.analyticType == Measure ==> e.measures == [x.fid, y.fid])
  {
    var x, y := XMeta(config, fields).value, YMeta(config, fields).value;
    ChartEncodings(config, fields);
    DedupPair(x.fid, y.fid);
  }

  lemma BarPlacement(x: FieldDescriptor, y: FieldDescriptor)
    requires x.fid == y.fid ==> x == y
    ensures var e := Deduplicated(BarPush(x, y));
            && e.columns == [x.fid] && e.rows == [y.fid]
            && e.color == [] && e.theta == []
            && (x.fid in e.dimensions <==> x.analyticType == Dimension)
            && (x.fid in e.measures <==> x.analyticType == Measure)
            && (y.fid in e.measures <==> y.analyticType == Measure)
            && (y.fid in e.dimensions <==> y.analyticType == Dimension)
            && |e.dimensions| + |e.measures| == (if x.fid == y.fid then 1 else 2)
  {
    BarLists(x, y);
    var e := Deduplicated(BarPush(x, y));
    BarMembership(x, y, e.dimensions, e.measures);
  }

  /** The deduplicated bar lists for each combination of analytic types. */
  lemma BarLists(x: FieldDescriptor, y: FieldDescriptor)
    requires x.fid == y.fid ==> x == y
    ensures var e := Deduplicated(BarPush(x, y));
            var xf, yf := x.fid, y.fid;
            && (x.analyticType == Dimension && y.analyticType == Measure ==> e.dimensions == [xf] && e.measures == [yf])
            && (x.analyticType == Dimension && y.analyticType == Dimension ==> e.dimensions == (if xf == yf then [xf] else [xf, yf]) && e.measures == [])
            && (x.analyticType == Measure && y.analyticType == Measure ==> e.dimensions == [] && e.measures == (if xf == yf then [xf] else [xf, yf]))
            && (x.analyticType == Measure && y.analyticType == Dimension ==> e.dimensions == [yf] && e.measures == [xf])
  {
    if x.analyticType == y.analyticType {
      DedupPair(x.fid, y.fid);
    } else {
      DedupOne(x.fid);
      DedupOne(y.fid);
    }
  }

  /** Which of the two lists each field lands in, given the lists for
      each combination of analytic types. */
  lemma BarMembership(x: FieldDescriptor, y: FieldDescriptor, dims: seq<string>, meas: seq<string>)
    requires x.fid == y.fid ==> x == y
    requires var xf, yf := x.fid, y.fid;
             && (x.analyticType == Dimension && y.analyticType == Measure ==> dims == [xf] && meas == [yf])
             && (x.analyticType == Dimension && y.analyticType == Dimension ==> dims == (if xf == yf then [xf] else [xf, yf]) && meas == [])
             && (x.analyticType == Measure && y.analyticType == Measure ==> dims == [] && meas == (if xf == yf then [xf] else [xf, yf]))
             && (x.analyticType == Measure && y.analyticType == Dimension ==> dims == [yf] && meas == [xf])
    ensures x.fid in dims <==> x.analyticType == Dimension
    ensures x.fid in meas <==> x.analyticType == Measure
    ensures y.fid in meas <==> y.analyticType == Measure
    ensures y.fid in dims <==> y.analyticType == Dimension
    ensures |dims| + |meas| == (if x.fid == y.fid then 1 else 2)
  {
  }

  /** The line chart's encodings for fields `x` and `y`: x in columns and,
      as for a bar, a dimension or a measure by its own analytic type; y in
      rows and measures only when it is a measure, and otherwise in no role
      unless it is x itself. Each list holds these fields and nothing else. */
  predicate LineShape(x: FieldDescriptor, y: FieldDescriptor, e: Encodings) {
    && e.columns == [x.fid]
    && e.rows == (if y.analyticType == Measure then [y.fid] else [])
    && e.color == [] && e.theta == []
    && (x.fid in e.dimensions <==> x.analyticType == Dimension)
    && (x.fid in e.measures <==> x.analyticType == Measure)
    && (y.fid in e.measures <==> y.analyticType == Measure)
    && (y.analyticType == Dimension && y.fid != x.fid ==> y.fid !in e.dimensions + e.measures + e.rows + e.columns)
    && e.dimensions == (if x.analyticType == Dimension then [x.fid] else [])
    && e.measures == (if x.analyticType == Measure then [x.fid] else [])
                     + (if y.analyticType == Measure && y.fid != x.fid then [y.fid] else [])
    && |e.dimensions| + |e.measures| == (if y.analyticType == Measure && x.fid != y.fid then 2 else 1)
  }

  /** Line charts: x as for bar charts; y is placed (in measures and rows)
      only when it is a measure, and otherwise appears in no role unless
      it is the x field itself. */
  lemma LineRoles(config: Json, fields: seq<FieldDescriptor>)
    requires CreateChartFromAI(config, fields).Some?
    requires IsType(ConfigOf(config).chartType, "line")
    ensures var e := CreateChartFromAI(config, fields).value[0].encodings;
            LineShape(XMeta(config, fields).value, YMeta(config, fields).value, e)
    ensures CreateChartFromAI(config, fields).value[0].geom == Some(JStr("line"))
  {
    var t := ConfigOf(config).chartType;
    var x, y := XMeta(config, fields).value, YMeta(config, fields).value;
    ChartEncodings(config, fields);
    SameNameSameField(config, fields);
    LineDispatch(t, x, y);
    assert Geom(t) == t;
    LinePlacement(x, y);
  }

  lemma LineDispatch(t: Option<Json>, x: FieldDescriptor, y: FieldDescriptor)
    requires IsType(t, "line")
    ensures Pushes(t, x, y) == LinePush(x, y)
  {
    assert !IsType(t, "bar") && !IsType(t, "scatter") && !IsType(t, "point");
  }

  lemma LinePlacement(x: FieldDescriptor, y: FieldDescriptor)
    requires x.fid == y.fid ==> x == y
    ensures LineShape(x, y, Deduplicated(LinePush(x, y)))
  {
    LineLists(x, y);
    var e := Deduplicated(LinePush(x, y));
    LineMembership(x, y, e.dimensions, e.measures);
  }

  /** The deduplicated line lists: x as a dimension or a measure, then y
      as a measure when it is one and is not x. */
  lemma LineLists(x: FieldDescriptor, y: FieldDescriptor)
    requires x.fid == y.fid ==> x == y
    ensures var e := Deduplicated(LinePush(x, y));
            && e.dimensions == (if x.analyticType == Dimension then [x.fid] else [])
            && e.measures == (if x.analyticType == Measure then [x.fid] else [])
                             + (if y.analyticType == Measure && y.fid != x.fid then [y.fid] else [])
  {
    var e := Deduplicated(LinePush(x, y));
    if x.analyticType == Dimension {
      DedupOne(x.fid);
      if y.analyticType == Measure {
        DedupOne(y.fid);
      }
    } else if y.analyticType == Measure {
      DedupPair(x.fid, y.fid);
    } else {
      DedupOne(x.fid);
    }
  }

  /** Which of the two line lists each field lands in, given the lists. */
  lemma LineMembership(x: FieldDescriptor, y: FieldDescriptor, dims: seq<string>, meas: seq<string>)
    requires x.fid == y.fid ==> x == y
    requires dims == (if x.analyticType == Dimension then [x.fid] else [])
    requires meas == (if x.analyticType == Measure then [x.fid] else [])
                     + (if y.analyticType == Measure && y.fid != x.fid then [y.fid] else [])
    ensures x.fid in dims <==> x.analyticType == Dimension
    ensures x.fid in meas <==> x.analyticType == Measure
    ensures y.fid in meas <==> y.analyticType == Measure
    ensures y.analyticType == Dimension && y.fid != x.fid ==> y.fid !in dims + meas
    ensures |dims| + |meas| == (if y.analyticType == Measure && x.fid != y.fid then 2 else 1)
  {
  }

  /** Scatter and point charts: both fields are measures whatever their
      types, x in columns and y in rows, drawn as points. Only the measures are
      deduplicated: one field plotted against itself is listed once there
      but stays in both rows and columns. */
  lemma ScatterRoles(config: Json, fields: seq<FieldDescriptor>)
    requires CreateChartFromAI(config, fields).Some?
    requires IsType(ConfigOf(config).chartType, "scatter") || IsType(ConfigOf(config).chartType, "point")
    ensures var e := CreateChartFromAI(config, fields).value[0].encodings;
            var x := XMeta(config, fields).value.fid;
            var y := YMeta(config, fields).value.fid;
            && e.dimensions == []
            && e.measures == (if x == y then [x] else [x, y])
            && e.columns == [x] && e.rows == [y]
            && e.color == [] && e.theta == []
    ensures CreateChartFromAI(config, fields).value[0].geom == Some(JStr("point"))
  {
    var t := ConfigOf(config).chartType;
    var x, y := XMeta(config, fields).value, YMeta(config, fields).value;
    ChartEncodings(config, fields);
    assert !IsType(t, "bar");
    assert Pushes(t, x, y) == ScatterPush(x, y);
    DedupPair(x.fid, y.fid);
  }

  /** Pie charts: x is the dimension and the colour, y the measure and the
      angle, whatever their types. */
  lemma PieRoles(config: Json, fields: seq<FieldDescriptor>)
    requires CreateChartFromAI(config, fields).Some?
    requires IsType(ConfigOf(config).chartType, "pie")
    ensures var e := CreateChartFromAI(config, fields).value[0].encodings;
            var x := XMeta(config, fields).value.fid;
            var y := YMeta(config, fields).value.fid;
            && e == Encodings([x], [y], [], [], [x], [y])
            && CreateChartFromAI(config, fields).value[0].geom == Some(JStr("arc"))
  {
    var t := ConfigOf(config).chartType;
    var x, y := XMeta(config, fields).value, YMeta(config, fields).value;
    ChartEncodings(config, fields);
    PieDispatch(t, x, y);
    DedupOne(x.fid);
    DedupOne(y.fid);
  }

  lemma PieDispatch(t: Option<Json>, x: FieldDescriptor, y: FieldDescriptor)
    requires IsType(t, "pie")
    ensures Pushes(t, x, y) == PiePush(x, y)
    ensures Geom(t) == Some(JStr("arc"))
  {
    assert !IsType(t, "bar") && !IsType(t, "scatter") && !IsType(t, "point") && !IsType(t, "line");
  }

  /** The chart's roles are the pushes for its type on the two resolved
      fields, deduplicated. */
  lemma ChartEncodings(config: Json, fields: seq<FieldDescriptor>)
    requires CreateChartFromAI(config, fields).Some?
    ensures XMeta(config, fields).Some? && YMeta(config, fields).Some?
    ensures var t := ConfigOf(config).chartType;
            CreateChartFromAI(config, fields).value[0].encodings
            == Deduplicated(Pushes(t, XMeta(config, fields).value, YMeta(config, fields).value))
  {
  }

  /** Any other chart type, `"area"` or a missing one, leaves every role
      empty; its geometry is the chart type as given. */
  lemma OtherTypesHaveNoRoles(config: Json, fields: seq<FieldDescriptor>)
    requires CreateChartFromAI(config, fields).Some?
    requires var t := ConfigOf(config).chartType;
             !IsType(t, "bar") && !IsType(t, "line") && !IsType(t, "scatter") && !IsType(t, "point") && !IsType(t, "pie")
    ensures CreateChartFromAI(config, fields).value[0].encodings == Encodings([], [], [], [], [], [])
    ensures CreateChartFromAI(config, fields).value[0].geom == ConfigOf(config).chartType
  {
  }

  /** The model's answer for a pie chart of `ProductName` by
      `GrossQuantity`, with an empty title. */
  const PieConfig: Json := JObj([("chartType", JStr("pie")), ("xField", JStr("ProductName")),
                                 ("yField", JStr("GrossQuantity")), ("title", JStr(""))])

  lemma PieConfigRead()
    ensures ConfigOf(PieConfig) == ChartConfig(Some(JStr("pie")), Some(JStr("ProductName")),
                                               Some(JStr("GrossQuantity")), Some(JStr("")))
  {
    var es := PieConfig.entries;
    KeyIndexAt(es, "chartType", 0);
    KeyIndexAt(es, "xField", 1);
    KeyIndexAt(es, "yField", 2);
    KeyIndexAt(es, "title", 3);
  }

  /** Scenario: the pie chart is built with the named fields in its
      roles, under the default name because the title is empty. */
  lemma PieScenario(fields: seq<FieldDescriptor>)
    requires exists i :: 0 <= i < |fields| && fields[i].fid == "ProductName"
    requires exists i :: 0 <= i < |fields| && fields[i].fid == "GrossQuantity"
    ensures var r := CreateChartFromAI(PieConfig, fields);
            && r.Some?
            && r.value[0].encodings == Encodings(["ProductName"], ["GrossQuantity"], [], [], ["ProductName"], ["GrossQuantity"])
            && r.value[0].name == JStr(DefaultChartName)
  {
    PieConfigRead();
    PieRoles(PieConfig, fields);
  }

  lemma DedupOne<T>(x: T)
    ensures Dedup([x]) == [x]
  {
    assert [x][..0] == [];
  }

}
