/** The `/api/nlq` handler of backend/server.js: a built-in default
    specification is adopted unless the language model answers with a
    parsable, schema-valid, allow-listed one; every failure of the model
    call is absorbed. The reply's rows and query text are fixed demo
    values, whatever was adopted.

    The model call is an `AdapterOutcome`: a non-ok HTTP status, a body
    whose `response` text parsed (or did not), or a thrown exception. The
    pre-aggregated demo rows are a parameter, since their averages are
    fractional. */
module DemoServer {

  import opened Wrappers
  import opened Json
  import opened QuerySpec
  import opened ColumnGuard

  datatype AdapterOutcome =
    | NotOk
    | Responded(parsed: Option<Json>)
    | Threw

  /** The fixed query text of every reply. */
  const DemoSql: string :=
    "SELECT BaseProductCode, SUM(GrossQuantity) as total_quantity, AVG(FlowRate) as avg_flow_rate FROM shipments GROUP BY BaseProductCode ORDER BY total_quantity DESC"

  const DefaultVega: Json := JObj([
    ("$schema", JStr("https://vega.github.io/schema/vega-lite/v5.json")),
    ("description", JStr("Shipment data by product code")),
    ("mark", JStr("bar")),
    ("encoding", JObj([
      ("x", JObj([("field", JStr("BaseProductCode")), ("type", JStr("nominal")), ("title", JStr("Product Code"))])),
      ("y", JObj([("field", JStr("total_quantity")), ("type", JStr("quantitative")), ("title", JStr("Total Quantity"))]))
    ]))
  ])

  /** The built-in specification: total quantity and average flow rate per
      product, ordered by the total's alias. */
  const DefaultSpec: Json := JObj([
    ("groupby", JArr([JStr("BaseProductCode")])),
    ("metrics", JArr([
      JObj([("agg", JStr("sum")), ("column", JStr("GrossQuantity")), ("alias", JStr("total_quantity"))]),
      JObj([("agg", JStr("avg")), ("column", JStr("FlowRate")), ("alias", JStr("avg_flow_rate"))])
    ])),
    ("orderBy", JArr([JObj([("column", JStr("total_quantity")), ("desc", JBool(true))])])),
    ("limit", JNum(10)),
    ("suggestedVegaLite", DefaultVega)
  ])

  /** The model's answer passes `validate(ollamaSpec) && guardColumns(ollamaSpec)`. */
  predicate Adoptable(o: AdapterOutcome) {
    o.Responded? && o.parsed.Some? && Validate(o.parsed.value) && GuardColumns(ToSpec(o.parsed.value))
  }

  /** The specification in force after the model call. */
  function AdoptSpec(o: AdapterOutcome): (spec: Json)
    ensures Adoptable(o) ==> spec == o.parsed.value
    ensures !Adoptable(o) ==> spec == DefaultSpec
  {
    match o
    case Responded(Some(v)) => if Validate(v) && GuardColumns(ToSpec(v)) then v else DefaultSpec
    case _ => DefaultSpec
  }

  /** A reply; an absent `suggestedVegaLite` (`undefined`) is None. */
  datatype DemoReply = DemoReply(data: seq<Json>, suggestedVegaLite: Option<Json>, sql: string)

  /** The handler's reply. There is no error reply: every adapter failure
      falls back to the default specification. */
  function HandleDemo(o: AdapterOutcome, processed: seq<Json>): (r: DemoReply)
    ensures r.data == processed && r.sql == DemoSql
    ensures Adoptable(o) ==> r.suggestedVegaLite == Get(o.parsed.value.entries, "suggestedVegaLite")
    ensures !Adoptable(o) ==> r.suggestedVegaLite == Some(DefaultVega)
  {
    var spec := AdoptSpec(o);
    DefaultVegaRead();
    DemoReply(processed, if spec.JObj? then Get(spec.entries, "suggestedVegaLite") else None, DemoSql)
  }

  lemma DefaultMetricsValid()
    ensures ValidTopEntry("metrics", DefaultSpec.entries[1].1)
  {
    var items := DefaultSpec.entries[1].1.items;
    forall j | 0 <= j < |items| ensures ValidMetric(items[j]) {
      var es := items[j].entries;
      assert es[0].0 == "agg" && es[1].0 == "column";
      assert Has(es, "agg") && Has(es, "column");
    }
  }

  lemma DefaultOrderByValid()
    ensures ValidTopEntry("orderBy", DefaultSpec.entries[2].1)
  {
    var es := DefaultSpec.entries[2].1.items[0].entries;
    assert Has(es, "column");
  }

  /** The default specification passes the schema. */
  lemma DefaultSpecValid()
    ensures Validate(DefaultSpec)
  {
    var es := DefaultSpec.entries;
    DefaultMetricsValid();
    DefaultOrderByValid();
    assert ValidTopEntry(es[0].0, es[0].1);
    assert ValidTopEntry(es[3].0, es[3].1);
    assert ValidTopEntry(es[4].0, es[4].1);
  }

  /** The default orders by one key, `total_quantity`. */
  lemma DefaultOrderByRead()
    requires Validate(DefaultSpec)
    ensures |OrderByOf(DefaultSpec)| == 1 && OrderByOf(DefaultSpec)[0].column == "total_quantity"
  {
    var es := DefaultSpec.entries;
    KeyIndexAt(es, "orderBy", 2);
    var key := es[2].1.items[0];
    KeyIndexAt(key.entries, "column", 0);
    assert ToOrderKey(key).column == "total_quantity";
  }

  /** A metric alias is not a column. */
  lemma TotalQuantityNotAllowed()
    ensures "total_quantity" !in AllowedCols
  {
    assert "total_quantity"[5] == '_';
    if "total_quantity" in AllowedCols {
      AllowedColumnsArePlainIdentifiers("total_quantity");
    }
  }

  /** The default specification passes the schema but orders by
      `total_quantity`, a metric alias outside the allow-list, so it would
      fail the guard; it is adopted without either check. */
  lemma DefaultSpecFailsGuard()
    ensures Validate(DefaultSpec)
    ensures !GuardColumns(ToSpec(DefaultSpec))
  {
    DefaultSpecValid();
    DefaultOrderByRead();
    TotalQuantityNotAllowed();
    GuardFailsOnOrderBy(DefaultSpec);
  }

  lemma GuardFailsOnOrderBy(v: Json)
    requires Validate(v) && |OrderByOf(v)| > 0 && OrderByOf(v)[0].column !in AllowedCols
    ensures ToSpec(v).orderBy[0].column == OrderByOf(v)[0].column
    ensures !GuardColumns(ToSpec(v))
  {
    OrderByColumnFailsGuard(ToSpec(v), 0);
  }

  lemma OrderByColumnFailsGuard(s: Spec, i: nat)
    requires i < |s.orderBy| && s.orderBy[i].column !in AllowedCols
    ensures !GuardColumns(s)
  {
  }

  /** The default's `suggestedVegaLite` is its bar chart. */
  lemma DefaultVegaRead()
    ensures Get(DefaultSpec.entries, "suggestedVegaLite") == Some(DefaultVega)
  {
    KeyIndexAt(DefaultSpec.entries, "suggestedVegaLite", 4);
  }

  /** Whatever the model does, the reply's rows and query text are the
      same; only `suggestedVegaLite` depends on the outcome. */
  lemma ReplyIgnoresModel(o1: AdapterOutcome, o2: AdapterOutcome, processed: seq<Json>)
    ensures HandleDemo(o1, processed).data == HandleDemo(o2, processed).data
    ensures HandleDemo(o1, processed).sql == HandleDemo(o2, processed).sql
  {
  }

  /** Each kind of failure (non-ok status, unparsable text, schema
      rejection, guard rejection, exception) keeps the default. */
  lemma FailuresFallBack(o: AdapterOutcome, processed: seq<Json>)
    requires o.NotOk? || o.Threw? || (o.Responded? && (o.parsed.None? || !Validate(o.parsed.value)
                                                     || !GuardColumns(ToSpec(o.parsed.value))))
    ensures AdoptSpec(o) == DefaultSpec
    ensures HandleDemo(o, processed) == DemoReply(processed, Some(DefaultVega), DemoSql)
  {
  }
}
