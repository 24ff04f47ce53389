/** The query specification the language model is asked to produce, and
    the closed JSON schema that both servers compile with Ajv
    (backend/backserver.js and backend/server.js hold identical copies).
    `Validate` implements exactly that schema literal with the draft-07
    keywords it uses: `type`, `enum`, `items`, `required`, `properties` and
    `additionalProperties`. A schema-valid value is then read into the typed
    `Spec` the compiler consumes. */
module QuerySpec {

  import opened Wrappers
  import opened Json

  /** The nine filter operators of the `op` enum. */
  const Ops: seq<string> := ["=", "!=", ">", "<", ">=", "<=", "in", "between", "contains"]

  /** The six aggregations of the `agg` enum. */
  const Aggs: seq<string> := ["sum", "avg", "min", "max", "count", "count_distinct"]

  /** The only keys `additionalProperties: false` admits at the top level. */
  const TopLevelKeys: seq<string> := ["filters", "groupby", "metrics", "orderBy", "limit", "suggestedVegaLite"]

  /** `{ enum: names }`: the value is one of the listed strings. */
  predicate InEnum(x: Json, names: seq<string>) {
    x.JStr? && x.s in names
  }

  /** `properties` of a filter item (`value: {}` accepts anything). */
  predicate FilterProperty(k: string, x: Json) {
    (k == "column" ==> x.JStr?) && (k == "op" ==> InEnum(x, Ops))
  }

  /** `properties` of a metric item. */
  predicate MetricProperty(k: string, x: Json) {
    (k == "agg" ==> InEnum(x, Aggs)) && (k == "column" ==> x.JStr?) && (k == "alias" ==> x.JStr?)
  }

  /** `properties` of an orderBy item. */
  predicate OrderProperty(k: string, x: Json) {
    (k == "column" ==> x.JStr?) && (k == "desc" ==> x.JBool?)
  }

  /** A filter item: an object (not closed) with `column`, `op`, `value`. */
  predicate ValidFilter(v: Json) {
    v.JObj?
    && (forall i :: 0 <= i < |v.entries| ==> FilterProperty(v.entries[i].0, v.entries[i].1))
    && Has(v.entries, "column") && Has(v.entries, "op") && Has(v.entries, "value")
  }

  /** A metric item: an object (not closed) with `agg` and `column`. */
  predicate ValidMetric(v: Json) {
    v.JObj?
    && (forall i :: 0 <= i < |v.entries| ==> MetricProperty(v.entries[i].0, v.entries[i].1))
    && Has(v.entries, "agg") && Has(v.entries, "column")
  }

  /** An orderBy item: an object (not closed) with `column`. */
  predicate ValidOrderKey(v: Json) {
    v.JObj?
    && (forall i :: 0 <= i < |v.entries| ==> OrderProperty(v.entries[i].0, v.entries[i].1))
    && Has(v.entries, "column")
  }

  /** One top-level property against its subschema; an unknown key fails
      (`additionalProperties: false`). */
  predicate ValidTopEntry(k: string, x: Json) {
    if k == "filters" then x.JArr? && forall j :: 0 <= j < |x.items| ==> ValidFilter(x.items[j])
    else if k == "groupby" then x.JArr? && forall j :: 0 <= j < |x.items| ==> x.items[j].JStr?
    else if k == "metrics" then x.JArr? && forall j :: 0 <= j < |x.items| ==> ValidMetric(x.items[j])
    else if k == "orderBy" then x.JArr? && forall j :: 0 <= j < |x.items| ==> ValidOrderKey(x.items[j])
    else if k == "limit" then x.JNum?
    else if k == "suggestedVegaLite" then x.JObj? || x.JNull?
    else false
  }

  /** `validate(spec)`: the compiled schema. No top-level key is required. */
  function Validate(v: Json): (r: bool)
    ensures r ==> v.JObj? && forall i :: 0 <= i < |v.entries| ==> v.entries[i].0 in TopLevelKeys
    ensures !v.JObj? ==> !r
  {
    v.JObj? && forall i :: 0 <= i < |v.entries| ==> ValidTopEntry(v.entries[i].0, v.entries[i].1)
  }

  datatype Filter = Filter(column: string, op: string, value: Json)

  /** An absent `alias` is None. */
  datatype Metric = Metric(agg: string, column: string, alias: Option<string>)

  /** An absent `desc` reads as false. */
  datatype OrderKey = OrderKey(column: string, desc: bool)

  /** A schema-valid specification; an absent array is the empty sequence
      (`spec.groupby || []`), an absent `limit` or `suggestedVegaLite` is None. */
  datatype Spec = Spec(
    filters: seq<Filter>,
    groupby: seq<string>,
    metrics: seq<Metric>,
    orderBy: seq<OrderKey>,
    limit: Option<int>,
    suggestedVegaLite: Option<Json>)

  /** What the schema guarantees of a specification's typed contents. */
  predicate WellFormed(s: Spec) {
    && (forall i :: 0 <= i < |s.filters| ==> s.filters[i].op in Ops)
    && (forall i :: 0 <= i < |s.metrics| ==> s.metrics[i].agg in Aggs)
    && (s.suggestedVegaLite.Some? ==> s.suggestedVegaLite.value.JObj? || s.suggestedVegaLite.value.JNull?)
  }

  function ToFilter(v: Json): (f: Filter)
    requires ValidFilter(v)
    ensures f.op in Ops
  {
    var es := v.entries;
    Filter(Get(es, "column").value.s, Get(es, "op").value.s, Get(es, "value").value)
  }

  function ToMetric(v: Json): (m: Metric)
    requires ValidMetric(v)
    ensures m.agg in Aggs
  {
    var es := v.entries;
    var alias := Get(es, "alias");
    Metric(Get(es, "agg").value.s, Get(es, "column").value.s,
           if alias.Some? then Some(alias.value.s) else None)
  }

  function ToOrderKey(v: Json): OrderKey
    requires ValidOrderKey(v)
  {
    var es := v.entries;
    var desc := Get(es, "desc");
    OrderKey(Get(es, "column").value.s, desc.Some? && desc.value.b)
  }

  /** The array under top-level key `k`, or the empty array when absent. */
  function ItemsOf(v: Json, k: string): (items: seq<Json>)
    requires Validate(v)
    requires k in ["filters", "groupby", "metrics", "orderBy"]
    ensures Get(v.entries, k).None? ==> items == []
    ensures Get(v.entries, k).Some? ==> ValidTopEntry(k, Get(v.entries, k).value)
  {
    match Get(v.entries, k)
    case None => []
    case Some(x) => if x.JArr? then x.items else []
  }

  function FiltersOf(v: Json): (fs: seq<Filter>)
    requires Validate(v)
    ensures forall i :: 0 <= i < |fs| ==> fs[i].op in Ops
  {
    var items := ItemsOf(v, "filters");
    seq(|items|, i requires 0 <= i < |items| => ToFilter(items[i]))
  }

  function GroupbyOf(v: Json): seq<string>
    requires Validate(v)
  {
    var items := ItemsOf(v, "groupby");
    seq(|items|, i requires 0 <= i < |items| => items[i].s)
  }

  function MetricsOf(v: Json): (ms: seq<Metric>)
    requires Validate(v)
    ensures forall i :: 0 <= i < |ms| ==> ms[i].agg in Aggs
  {
    var items := ItemsOf(v, "metrics");
    seq(|items|, i requires 0 <= i < |items| => ToMetric(items[i]))
  }

  function OrderByOf(v: Json): seq<OrderKey>
    requires Validate(v)
  {
    var items := ItemsOf(v, "orderBy");
    seq(|items|, i requires 0 <= i < |items| => ToOrderKey(items[i]))
  }

  function LimitOf(v: Json): Option<int>
    requires Validate(v)
  {
    var limit := Get(v.entries, "limit");
    if limit.Some? then Some(limit.value.n) else None
  }

  /** Reads a schema-valid value into a typed specification. */
  function ToSpec(v: Json): (s: Spec)
    requires Validate(v)
    ensures WellFormed(s)
  {
    Spec(FiltersOf(v), GroupbyOf(v), MetricsOf(v), OrderByOf(v), LimitOf(v),
         Get(v.entries, "suggestedVegaLite"))
  }

  function EncodeFilter(f: Filter): Json {
    JObj([("column", JStr(f.column)), ("op", JStr(f.op)), ("value", f.value)])
  }

  function EncodeMetric(m: Metric): Json {
    JObj([("agg", JStr(m.agg)), ("column", JStr(m.column))]
         + (if m.alias.Some? then [("alias", JStr(m.alias.value))] else []))
  }

  function EncodeOrderKey(k: OrderKey): Json {
    JObj([("column", JStr(k.column)), ("desc", JBool(k.desc))])
  }

  /** The JSON text a well-behaved model would emit for `s`. */
  function Encode(s: Spec): Json {
    JObj([("filters", JArr(seq(|s.filters|, i requires 0 <= i < |s.filters| => EncodeFilter(s.filters[i])))),
          ("groupby", JArr(seq(|s.groupby|, i requires 0 <= i < |s.groupby| => JStr(s.groupby[i])))),
          ("metrics", JArr(seq(|s.metrics|, i requires 0 <= i < |s.metrics| => EncodeMetric(s.metrics[i])))),
          ("orderBy", JArr(seq(|s.orderBy|, i requires 0 <= i < |s.orderBy| => EncodeOrderKey(s.orderBy[i]))))]
         + (if s.limit.Some? then [("limit", JNum(s.limit.value))] else [])
         + (if s.suggestedVegaLite.Some? then [("suggestedVegaLite", s.suggestedVegaLite.value)] else []))
  }

  lemma FilterRoundTrip(f: Filter)
    requires f.op in Ops
    ensures ValidFilter(EncodeFilter(f)) && ToFilter(EncodeFilter(f)) == f
  {
    var es := EncodeFilter(f).entries;
    KeyIndexAt(es, "column", 0);
    KeyIndexAt(es, "op", 1);
    KeyIndexAt(es, "value", 2);
  }

  lemma MetricRoundTrip(m: Metric)
    requires m.agg in Aggs
    ensures ValidMetric(EncodeMetric(m)) && ToMetric(EncodeMetric(m)) == m
  {
    var es := EncodeMetric(m).entries;
    KeyIndexAt(es, "agg", 0);
    KeyIndexAt(es, "column", 1);
    if m.alias.Some? {
      KeyIndexAt(es, "alias", 2);
    } else {
      assert KeyIndex(es, "alias") == -1;
    }
  }

  lemma OrderKeyRoundTrip(k: OrderKey)
    ensures ValidOrderKey(EncodeOrderKey(k)) && ToOrderKey(EncodeOrderKey(k)) == k
  {
    var es := EncodeOrderKey(k).entries;
    KeyIndexAt(es, "column", 0);
    KeyIndexAt(es, "desc", 1);
  }

  /** The schema accepts the JSON form of a well-formed specification. */
  lemma EncodeValid(s: Spec)
    requires WellFormed(s)
    ensures Validate(Encode(s))
  {
    var es := Encode(s).entries;
    forall i | 0 <= i < |es| ensures ValidTopEntry(es[i].0, es[i].1) {
      if i == 0 {
        var items := es[0].1.items;
        forall j | 0 <= j < |items| ensures ValidFilter(items[j]) {
          FilterRoundTrip(s.filters[j]);
        }
      } else if i == 2 {
        var items := es[2].1.items;
        forall j | 0 <= j < |items| ensures ValidMetric(items[j]) {
          MetricRoundTrip(s.metrics[j]);
        }
      } else if i == 3 {
        var items := es[3].1.items;
        forall j | 0 <= j < |items| ensures ValidOrderKey(items[j]) {
          OrderKeyRoundTrip(s.orderBy[j]);
        }
      }
    }
  }

  lemma FiltersReadBack(s: Spec)
    requires WellFormed(s)
    ensures Validate(Encode(s)) && FiltersOf(Encode(s)) == s.filters
  {
    EncodeValid(s);
    var v := Encode(s);
    var es := v.entries;
    KeyIndexAt(es, "filters", 0);
    forall i | 0 <= i < |s.filters| ensures FiltersOf(v)[i] == s.filters[i] {
      FilterRoundTrip(s.filters[i]);
    }
  }

  lemma GroupbyReadBack(s: Spec)
    requires WellFormed(s)
    ensures Validate(Encode(s)) && GroupbyOf(Encode(s)) == s.groupby
  {
    EncodeValid(s);
    var v := Encode(s);
    var es := v.entries;
    KeyIndexAt(es, "groupby", 1);
  }

  lemma MetricsReadBack(s: Spec)
    requires WellFormed(s)
    ensures Validate(Encode(s)) && MetricsOf(Encode(s)) == s.metrics
  {
    EncodeValid(s);
    var v := Encode(s);
    var es := v.entries;
    KeyIndexAt(es, "metrics", 2);
    var items := ItemsOf(v, "metrics");
    assert items == es[2].1.items;
    assert |items| == |s.metrics|;
    forall i | 0 <= i < |s.metrics| ensures MetricsOf(v)[i] == s.metrics[i] {
      assert items[i] == EncodeMetric(s.metrics[i]);
      MetricRoundTrip(s.metrics[i]);
    }
  }

  lemma OrderByReadBack(s: Spec)
    requires WellFormed(s)
    ensures Validate(Encode(s)) && OrderByOf(Encode(s)) == s.orderBy
  {
    EncodeValid(s);
    var v := Encode(s);
    var es := v.entries;
    KeyIndexAt(es, "orderBy", 3);
    forall i | 0 <= i < |s.orderBy| ensures OrderByOf(v)[i] == s.orderBy[i] {
      OrderKeyRoundTrip(s.orderBy[i]);
    }
  }

  lemma LimitReadBack(s: Spec)
    requires WellFormed(s)
    ensures Validate(Encode(s)) && LimitOf(Encode(s)) == s.limit
  {
    EncodeValid(s);
    var v := Encode(s);
    var es := v.entries;
    if s.limit.Some? {
      KeyIndexAt(es, "limit", 4);
    } else {
      assert KeyIndex(es, "limit") == -1;
    }
  }

  lemma VegaReadBack(s: Spec)
    requires WellFormed(s)
    ensures Validate(Encode(s)) && Get(Encode(s).entries, "suggestedVegaLite") == s.suggestedVegaLite
  {
    EncodeValid(s);
    var v := Encode(s);
    var es := v.entries;
    if s.suggestedVegaLite.Some? {
      KeyIndexAt(es, "suggestedVegaLite", |es| - 1);
    } else {
      assert KeyIndex(es, "suggestedVegaLite") == -1;
    }
  }

  /** A well-formed specification survives encoding: the schema accepts
      its JSON form and reading that form back gives the same specification. */
  lemma EncodeRoundTrip(s: Spec)
    requires WellFormed(s)
    ensures Validate(Encode(s))
    ensures ToSpec(Encode(s)) == s
  {
    FiltersReadBack(s);
    GroupbyReadBack(s);
    MetricsReadBack(s);
    OrderByReadBack(s);
    LimitReadBack(s);
    VegaReadBack(s);
  }

  /** The top level is closed: a property outside the six schema keys makes
      any object invalid, whatever else it holds. */
  lemma UnknownTopLevelKeyRejected(es: seq<(string, Json)>, k: string, x: Json)
    requires k !in TopLevelKeys
    ensures !Validate(JObj(es + [(k, x)]))
  {
    var v := JObj(es + [(k, x)]);
    assert v.entries[|es|] == (k, x);
  }

  /** Item objects are open: an extra property on a filter item that the
      item schema does not list keeps the item valid. */
  lemma FilterItemsAreOpen(es: seq<(string, Json)>, k: string, x: Json)
    requires ValidFilter(JObj(es))
    requires k != "column" && k != "op" && k != "value"
    ensures ValidFilter(JObj(es + [(k, x)]))
  {
    var es' := es + [(k, x)];
    assert forall j :: 0 <= j < |es| ==> es'[j] == es[j];
    KeyIndexAt(es', "column", KeyIndex(es, "column"));
    KeyIndexAt(es', "op", KeyIndex(es, "op"));
    KeyIndexAt(es', "value", KeyIndex(es, "value"));
  }

  /** Absent arrays read as empty ones: the empty object is a valid
      specification with nothing in it. */
  lemma EmptyObjectIsEmptySpec()
    ensures Validate(JObj([]))
    ensures ToSpec(JObj([])) == Spec([], [], [], [], None, None)
  {
  }
}
