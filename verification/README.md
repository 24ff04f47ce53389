# Shipment NLQ dashboard — a Dafny model of its query and chart core

The system answers free-text questions about a table of fuel shipments. A
language model turns the question into a small JSON query specification.
The back end validates it against a strict schema and checks every column
against an allow-list. It then renders the specification as SQL text and
replies with rows and an optional Vega-Lite chart. The front end types the
reply's columns, computes dashboard metrics and decides which chart to show.

This project models that core as pure Dafny functions and proves
properties of them:

- `QuerySpec`: the specification schema (`validate`) and the typed specification read from a valid value.
- `ColumnGuard`: the eleven-column allow-list and `guardColumns`.
- `SqlCompiler`: the SQL text builder of backend/backserver.js. It has two dialects: `AsWritten` keeps the source's quoting quirks and `Corrected` fixes them (see "## Findings").
- `NlqServer`: the `/api/nlq` handler of backend/backserver.js, from the parsed model reply to the 400 replies or the data/chart/SQL reply. The SQL builder's dialect is a parameter.
- `DemoServer`: the `/api/nlq` handler of backend/server.js. It adopts the model's specification or falls back to a built-in default. Its schema and allow-list are the same as backserver.js's up to formatting, so both servers share `QuerySpec` and `ColumnGuard`.
- `FieldInference`: `inferType`, the field descriptors built from the first row, and `processShipmentData`.
- `ChartUtils`: `createChartFromAI`, the GraphicWalker chart specification built from an AI chart config.
- `App`: the dashboard's `ask` flow. It covers the blank-prompt guard, the integer metrics and the chart-state branch.
- `FrontApp`: the earlier single-file client's `ask`.
- `Text`, `Numbers`, `Json`, `Seqs`, `Wrappers`: supporting definitions. These are JavaScript strings and `replace`, number rendering, JSON values and truthiness, `[...new Set(xs)]`, and `Option`.

JSON values are a `Json` datatype with integer numbers. Object entries keep
their order, and property lookup finds the first entry with the key. The
model's reply text arrives already parsed, with `None` when `JSON.parse`
throws. Mock tables are parameters.

## Model

| member | source | states |
|---|---|---|
| QuerySpec.Validate | backend/backserver.js:61-117 | Only an object whose every top-level key is one of the six schema properties (`additionalProperties: false`) can pass; any non-object fails |
| QuerySpec.ToSpec | backend/backserver.js:61-115 | A specification read from a valid value is well formed: every filter operator is one of the nine in the enum and every aggregation one of the six |
| QuerySpec.FilterRoundTrip | backend/backserver.js:64-87 | A filter with an enumerated operator, written as `{column, op, value}`, passes the item schema and reads back as itself |
| QuerySpec.MetricRoundTrip | backend/backserver.js:89-102 | A metric, with or without its optional alias, passes the item schema and reads back as itself |
| QuerySpec.OrderKeyRoundTrip | backend/backserver.js:103-110 | An order key, ascending or descending, passes the item schema and reads back as itself |
| QuerySpec.EncodeRoundTrip | backend/backserver.js:61-115 | Every well-formed specification, written as JSON, passes the schema and reads back as the same specification |
| QuerySpec.UnknownTopLevelKeyRejected | backend/backserver.js:114 | Adding a top-level key outside the six properties makes any object fail validation |
| QuerySpec.FilterItemsAreOpen | backend/backserver.js:66-86 | Filter items allow extra keys: adding a property other than column/op/value to a valid filter keeps it valid |
| QuerySpec.EmptyObjectIsEmptySpec | backend/backserver.js:61-115 | `{}` is valid, since no top-level key is required, and reads as the empty specification |
| ColumnGuard.GuardColumns | backend/backserver.js:134-141 | The guard passes if and only if every groupby column, metric column, filter column and orderBy column is in the allow-list |
| ColumnGuard.AllowedColumnsAreLetters | backend/backserver.js:120-132 | Every allowed column is a non-empty run of ASCII letters |
| ColumnGuard.AllowedColumnsArePlainIdentifiers | backend/backserver.js:120-132 | No allowed column contains a comma, space, quote, underscore or parenthesis |
| ColumnGuard.GuardIgnoresAlias | backend/backserver.js:134-141 | The guard's verdict does not depend on any metric's alias |
| ColumnGuard.EmptySpecPasses | backend/backserver.js:134-141 | A specification that names no column passes, whatever its limit and chart |
| ColumnGuard.OrderByDefaultAliasRejected | backend/backserver.js:134-141 | Ordering by a metric's default alias `agg_column` is always rejected, because the alias is not an allowed column |
| SqlCompiler.RenderFilter | backend/backserver.js:196-214 | A filter renders as `1=1` exactly when its operator/value pair matches no branch; otherwise the predicate starts with the filter's column |
| SqlCompiler.WhereClause | backend/backserver.js:215 | The WHERE clause is empty if and only if there are no filters, and otherwise starts with ` WHERE ` |
| SqlCompiler.WherePreservesOrder | backend/backserver.js:196-215 | When no predicate holds ` AND ` itself, the text after ` WHERE ` splits back at ` AND ` into exactly one predicate per filter, in input order |
| SqlCompiler.BetweenHoldsAnd | backend/backserver.js:199-200 | A `between` predicate holds ` AND ` between its two bounds, so the WHERE list cannot be read back at ` AND ` around it |
| SqlCompiler.GroupByClause | backend/backserver.js:217-218 | The GROUP BY clause is empty if and only if there are no groupby columns |
| SqlCompiler.OrderByClause | backend/backserver.js:220-225 | The ORDER BY clause is empty if and only if there are no order keys |
| SqlCompiler.LimitClause | backend/backserver.js:226 | The LIMIT clause is empty exactly when the limit is absent or zero (falsy) |
| SqlCompiler.Compile | backend/backserver.js:182-226 | The query text starts with `SELECT ` |
| SqlCompiler.SelectListPreservesOrder | backend/backserver.js:182-194 | For a guarded specification whose explicit aliases hold no comma, the select list splits back at `, ` into the groupby columns in order, followed by each rendered metric in order |
| SqlCompiler.AliasBypassesGuard | backend/backserver.js:175-191 | Giving a metric any non-empty alias leaves a passing guard passing, and the alias appears verbatim after ` AS ` at the end of that metric's select item |
| SqlCompiler.MetricCallReadsBack | backend/backserver.js:184-191 | A metric other than count_distinct reads back as a call of the upper-cased aggregation on its column, followed by ` AS ` and its alias; the alias falls back to `agg_column` |
| SqlCompiler.CountDistinctCallReadsBack | backend/backserver.js:186-191 | A count_distinct metric reads back as a `COUNT` call with its alias. The argument splits into `DISTINCT` and the column only in the corrected dialect; as written it is the single word `DISTINCT<column>` |
| SqlCompiler.CountDistinctFusedAsWritten | backend/backserver.js:186-191 | As written, a count_distinct call's argument is the single word `DISTINCT<column>`, not the keyword and the column |
| SqlCompiler.CountDistinctSeparated | backend/backserver.js:186-191 | Corrected, a count_distinct metric is a `COUNT` call whose argument is the keyword `DISTINCT` and then the column as its own word |
| SqlCompiler.GroupByPreservesOrder | backend/backserver.js:217-218 | The GROUP BY list splits back into exactly the groupby columns, in order |
| SqlCompiler.OrderItemRoundTrip | backend/backserver.js:221-223 | `column ASC` or `column DESC` parses back to the order key it came from |
| SqlCompiler.OrderByPreservesOrder | backend/backserver.js:220-225 | The ORDER BY list parses back into exactly the order keys, in order |
| SqlCompiler.LimitReadsBack | backend/backserver.js:226 | A non-zero limit's LIMIT text parses back as that integer |
| SqlCompiler.ContainsLiteralReadsBack | backend/backserver.js:201-205 | With every quote doubled, a `contains` value reads back as one SQL literal equal to the value's string form, followed by ` \|\| '%'` |
| SqlCompiler.ComparisonLiteralReadsBack | backend/backserver.js:206-211 | With every quote doubled, a non-numeric comparison value reads back as one SQL literal equal to its string form, with nothing after it |
| SqlCompiler.ComparisonNumberUnquoted | backend/backserver.js:206-211 | A numeric comparison value is rendered unquoted and parses back as the number, in both dialects |
| SqlCompiler.BetweenLiteralsReadBack | backend/backserver.js:199-200 | With escaping, both `between` bounds read back as SQL literals equal to their string forms, separated by ` AND ` |
| SqlCompiler.InListReadsBack | backend/backserver.js:197-198 | With escaping, the `IN (...)` list reads back as exactly the string forms of the array's items, in order |
| SqlCompiler.CorrectedLiteralBalanced | backend/backserver.js:201-205 | A literal with every quote doubled has an even number of quotes |
| SqlCompiler.ContainsOneQuoteDoubled | backend/backserver.js:201-205 | A `contains` value with exactly one quote is rendered with that quote doubled, the same in both dialects |
| SqlCompiler.ContainsSecondQuoteClosesLiteral | backend/backserver.js:201-205 | As written, in a `contains` value with two quotes the second one closes the literal early: the literal is the text up to it, and the rest of the value follows outside the literal |
| SqlCompiler.ContainsTwoQuotesBreaksLiteral | backend/backserver.js:201-205 | As written, `contains` with the value `a'b'c` yields the literal `a'b`, followed by the stray text `c' \|\| '%'` |
| SqlCompiler.InItemQuoteCloses | backend/backserver.js:197-198 | As written, an `in` item holding a quote ends its literal at that quote, so the list no longer reads back as the item |
| SqlCompiler.InItemQuoteInjects | backend/backserver.js:197-198 | As written, the item `x') OR ('1'='1` yields the literal `x` followed by the text `) OR ('1'='1')` outside the list |
| SqlCompiler.SameFilterText | backend/backserver.js:196-214 | A filter whose value has no quote in its string form, nor in any array item's, renders the same in both dialects |
| SqlCompiler.DialectsAgreeWithoutQuirks | backend/backserver.js:182-226 | Without count_distinct metrics and without quotes in filter values, the source's query text and the corrected one are identical |
| Text.DoubleFirstQuote | backend/backserver.js:202-205 | `replace("'", "''")` leaves a quote-free string unchanged, adds exactly one quote when there is one, and keeps everything before the first quote |
| Text.FirstQuoteEscapeCorrectIffAtMostOneQuote | backend/backserver.js:202-205 | Doubling only the first quote equals doubling every quote if and only if the string has at most one quote |
| Text.ReadQuotedDoubled | backend/backserver.js:202-205 | A string with every quote doubled, then a closing quote, reads back as exactly the string |
| Text.TrimEmptyIffAllSpace | frontend/src/App.jsx:58 | `trim()` gives the empty string if and only if every character is JavaScript white space |
| Numbers.IntToStringRoundTrip | backend/backserver.js:226 | An integer's decimal text parses back as the integer |
| Seqs.Dedup | frontend/src/utils/chartUtils.js:122-123 | `[...new Set(xs)]` holds every element of `xs`, nothing else, each at most once |
| Seqs.DedupKeepsFirstOrder | frontend/src/utils/chartUtils.js:122-123 | The deduplicated elements keep the order of their first occurrences |
| Seqs.DedupIdempotent | frontend/src/utils/chartUtils.js:122-123 | Deduplicating twice is the same as deduplicating once |
| Seqs.NoDupsDedupIsIdentity | frontend/src/utils/chartUtils.js:122-123 | A list without repetitions is left unchanged |
| Seqs.DedupCountsDistinct | frontend/src/App.jsx:42-43 | The size of the Set is the number of distinct values |
| NlqServer.HandleNlq | backend/backserver.js:168-238 | Unparsable model output gives the invalid-JSON 400, and a schema or guard failure gives the rejected-spec 400. The handler replies with data exactly when the value is valid and guarded; the data is a prefix of the rows, the chart is an object or null, and the query text is the chosen builder's rendering of the specification |
| NlqServer.SliceTo | backend/backserver.js:234 | `slice(0, end)` keeps a prefix of the rows. Its length is `end`, cut to the number of rows, and a negative `end` counts back from the end |
| NlqServer.ReplyVega | backend/backserver.js:235 | The reply's chart is the specification's own object when it has one, and null when the chart is absent or null |
| NlqServer.SqlOnlyForGuardedSpecs | backend/backserver.js:175-194 | Query text is returned only for a schema-valid specification whose every referenced column is allowed, and it is that specification's rendering |
| NlqServer.DisallowedColumnRejected | backend/backserver.js:175-179 | A valid specification that names a column outside the allow-list anywhere is answered with the rejected-spec 400 |
| NlqServer.RowsReturned | backend/backserver.js:234 | The reply holds the first `limit` rows, or the first 10 when the limit is absent or 0, cut to the table's size. With the three mock rows that is min(3, limit or 10) |
| NlqServer.VegaPassedThrough | backend/backserver.js:235 | The specification's `suggestedVegaLite` object is passed through unchanged; an absent or null one becomes null |
| DemoServer.AdoptSpec | backend/server.js:171-181 | The model's specification is adopted exactly when the call succeeded, its text parsed, and it passed the schema and the guard; otherwise the default is kept |
| DemoServer.HandleDemo | backend/server.js:184-189 | The reply always carries the demo rows and the fixed query text. Its chart is the adopted specification's `suggestedVegaLite`, or the default bar chart |
| DemoServer.DefaultSpecValid | backend/server.js:132-149 | The built-in default specification passes the schema |
| DemoServer.TotalQuantityNotAllowed | backend/server.js:111-115 | `total_quantity` is not an allowed column |
| DemoServer.DefaultSpecFailsGuard | backend/server.js:132-149 | The built-in default fails the column guard, because it orders by its own alias `total_quantity` |
| DemoServer.GuardFailsOnOrderBy | backend/server.js:117-124 | A valid specification whose first order key is not allowed fails the guard |
| DemoServer.DefaultVegaRead | backend/server.js:140-148 | The default specification's chart is the fixed bar chart of total quantity by product code |
| DemoServer.ReplyIgnoresModel | backend/server.js:184-189 | Rows and query text are the same whatever the model answered |
| DemoServer.FailuresFallBack | backend/server.js:151-181 | A non-ok status, a thrown call, unparsable text, or a spec failing the schema or guard all give the default reply |
| FieldInference.ContainsDate | frontend/src/App.jsx:99 | The unanchored test `/\d{4}-\d{2}-\d{2}/` holds if and only if the pattern matches at some position |
| FieldInference.InferType | frontend/src/App.jsx:96-101 | A value is quantitative if and only if it is a number, and temporal if and only if it is not a number and its string form contains a date |
| FieldInference.DateAnywhereIsTemporal | frontend/src/App.jsx:99 | A string with a date anywhere inside it, not only at the start, is temporal |
| FieldInference.RowEntries | frontend/src/App.jsx:103 | `Object.keys` gives an object's own entries; for an array or a string, one entry per item or character, keyed by its position's decimal text and holding the item or the one-character string there; nothing for other values |
| FieldInference.BuildFields | frontend/src/App.jsx:103-111 | One descriptor per key of the first row, in order, named by the key and typed by `inferType`; no descriptors without rows. A field is a measure if and only if it is quantitative |
| FieldInference.ProcessShipmentData | frontend/src/utils/chartUtils.js:129-149 | One descriptor per key of the first row: quantitative and a measure if and only if the value is numeric, nominal otherwise. The rows are returned unchanged, and a null first row throws |
| FieldInference.NumbersAgree | frontend/src/utils/chartUtils.js:137 | A number in the first row is typed quantitative by both builders |
| FieldInference.EmptyStringDisagrees | frontend/src/utils/chartUtils.js:137 | An empty string is nominal for `inferType` but quantitative for `processShipmentData`, since `Number("")` is 0 |
| FieldInference.DatesDisagree | frontend/src/utils/chartUtils.js:142 | A date string is temporal for `inferType` but never temporal for `processShipmentData` |
| ChartUtils.FindField | frontend/src/utils/chartUtils.js:9-10 | `find` returns the first descriptor whose `fid` strictly equals the key, and nothing if and only if no descriptor matches |
| ChartUtils.CreateChartFromAI | frontend/src/utils/chartUtils.js:3-127 | There is no chart if and only if the config is falsy or either field is not found. Otherwise there is one chart with the fixed id, the title or the default name, the mapped geometry, and deduplicated dimensions and measures |
| ChartUtils.SameNameSameField | frontend/src/utils/chartUtils.js:9-10 | When x and y name the same field, they resolve to the same descriptor |
| ChartUtils.UnknownFieldGivesNull | frontend/src/utils/chartUtils.js:12-19 | An x field that no descriptor has gives no chart |
| ChartUtils.BarRoles | frontend/src/utils/chartUtils.js:81-96 | Bar: x in columns and y in rows. Each field is a dimension or a measure by its own analytic type, one field is counted once, and the geometry is `bar` |
| ChartUtils.BarOrder | frontend/src/utils/chartUtils.js:82-96 | Bar: two distinct fields of the same analytic type are listed x first, then y |
| ChartUtils.LineRoles | frontend/src/utils/chartUtils.js:101-113 | Line: x in columns and, as for a bar, a dimension or a measure by its own type; y in rows and measures only when it is a measure, and otherwise in no role. The dimensions and measures hold exactly these fields, each once, and the geometry is `line` |
| ChartUtils.LinePlacement | frontend/src/utils/chartUtils.js:101-113 | For any x and y, the deduplicated line lists hold x as a dimension or measure by its type, then y as a measure only when it is one and is not x, and nothing else |
| ChartUtils.ScatterRoles | frontend/src/utils/chartUtils.js:97-100 | Scatter and point: both fields are measures, listed once if they are the same. x is in columns, y in rows, and the geometry is `point` |
| ChartUtils.PieRoles | frontend/src/utils/chartUtils.js:114-119 | Pie: x is the dimension and colour, y the measure and angle, and the geometry is `arc` |
| ChartUtils.OtherTypesHaveNoRoles | frontend/src/utils/chartUtils.js:45-51 | Any other chart type gets empty encodings and keeps its type as the geometry |
| ChartUtils.PieScenario | frontend/src/utils/chartUtils.js:114-119 | A pie config of ProductName against GrossQuantity with an empty title gives that pie under the default name |
| App.BlankPromptIgnored | frontend/src/App.jsx:58 | A prompt is sent if and only if it holds a character that is not white space |
| App.ValueCodes | frontend/src/App.jsx:42-43 | Every code a Set compares by value is kept as often as it occurs, and every other code is dropped, so the codes dropped are exactly the object and array codes |
| App.CalculateMetrics | frontend/src/App.jsx:35-54 | Missing or empty data leaves the metrics alone, and a null row throws. Otherwise the total is the row count and the product count is the distinct primitive codes plus one per object code, never more than the total |
| App.StringCodesCountDistinct | frontend/src/App.jsx:42-43 | When every row has a string product code, the product count is the number of distinct codes |
| App.ObjectCodesCountSeparately | frontend/src/App.jsx:42-43 | Two rows with equal object codes count as two products |
| App.UpdateChart | frontend/src/App.jsx:118-146 | Without both a truthy `chartConfig` and a truthy `aiPowered`, every chart is cleared. With both, a `chartSpec` is shown directly, and otherwise the generated chart is used if there is one. The view switches to analytics exactly when there is a config |
| App.UpdateChartKeepsConsistent | frontend/src/App.jsx:118-146 | A shown Vega chart is always an AI chart with a spec, and an AI chart always has a config, from the initial state on |
| App.ConfigWithoutAiClearsButSwitches | frontend/src/App.jsx:118-146 | A config without `aiPowered` clears the charts yet still switches to the analytics view |
| App.Ask | frontend/src/App.jsx:56-146 | A blank prompt or a reply without data changes nothing. Otherwise rows and fields are set; a throwing metric skips the chart branch, and the chart branch runs otherwise |
| App.QueryServerNeverDrivesCharts | frontend/src/App.jsx:79-146 | Against the query server, a rejection changes nothing, and an answer sets the rows and clears every chart |
| App.RowsOnlyClearCharts | frontend/src/App.jsx:113-141 | A reply with rows and no chart properties sets rows and fields and clears every chart |
| App.DemoServerNeverDrivesCharts | frontend/src/App.jsx:79-146 | Against the demo server, the dashboard shows the demo rows and clears every chart |
| FrontApp.Ask | frontend/front.jsx:12-35 | A reply without data changes nothing. Otherwise rows and fields are set, and the chart spec is `suggestedVegaLite` exactly when it is truthy |
| FrontApp.QueryServerSpecReachesChart | frontend/front.jsx:18-35 | Against the query server, the specification's own chart object reaches the chart, an absent or null one gives none, and a rejection changes nothing |
| FrontApp.DemoServerSpecReachesChart | frontend/front.jsx:18-35 | Against the demo server, the chart is the default bar chart unless the model's specification was adopted |

## Left out

- The HTTP layer, `fetch` to the language model and the prompt text built for it are left out. The model's reply is a parameter: already parsed for backserver.js, and an `AdapterOutcome` for server.js.
- JSON parsing and the Ajv validator compiled from the schema are not modelled as code. The schema's meaning is stated directly by `QuerySpec.Validate`.
- Numbers are integers. A fractional `limit` or filter value, the average metrics (`avgFlowRate`, `avgQuantity`, `Math.round`) and the fractional mock rows are left out. The mock tables are parameters.
- `Text.ToUpper` maps ASCII letters only. The aggregation names it is applied to are ASCII.
- Of the GraphicWalker chart specification, only the id, name, geometry and the six encoding roles the code fills are kept. The ten roles that always stay empty and the fixed `config` flags are left out.
- The chat messages, explanation text, loading flag, dark mode and the prompt reset are left out, as are the 500 reply of server.js and the `catch` body of App.jsx. A failed request there is a reply without data.
- The `note` property of both replies is a fixed string and is left out.
- A model reply that fails to reach backserver.js, whose `await` there is unguarded, is left out.
- `data` that is not an array is left out. A reply's `data` is a list of rows or absent.
- The dashboard reads `chartConfig`, `aiPowered` and `chartSpec` from the reply, and `App` models that branch in full. Neither server sends these properties. `App.QueryServerNeverDrivesCharts` and `App.DemoServerNeverDrivesCharts` state the consequence.
- FieldInference.RowEntries: a string is a sequence of Unicode characters, not of UTF-16 code units. A string row with a character outside the Basic Multilingual Plane gets one entry for it, where `Object.keys` gives two, one per surrogate. Neither server sends string rows.
- SqlCompiler.Compile: its own contract states only the `SELECT ` prefix. The clause functions state where each clause starts. The select list, the GROUP BY list and the ORDER BY list read back in order by the `...PreservesOrder` lemmas, and the WHERE list only as `SqlCompiler.WhereClause` below says.
- SqlCompiler.WhereClause: the predicates' input order and their ` AND ` join are stated (by `SqlCompiler.WherePreservesOrder`) only when no predicate holds ` AND ` itself. A `between` predicate always does, and so may a quoted value.
- SqlCompiler.SelectListPreservesOrder: holds only when no explicit alias contains a comma. Aliases are not checked by the guard and are inserted as they are (`SqlCompiler.AliasBypassesGuard`), so a comma in one splits its select item.
- NlqServer.RowsReturned: assumes a non-negative limit. A negative limit's slice is stated by `NlqServer.SliceTo`.

## Findings

| source | as written | input that shows it | evidently intended | confidence | as-written member | corrected member |
|---|---|---|---|---|---|---|
| backend/backserver.js:201-210 | `String(v).replace("'", "''")` doubles only the first quote of a `contains` or comparison value | `{column: "ShipmentCode", op: "contains", value: "a'b'c"}`: the literal ends after `a'b` and `c' \|\| '%'` is left outside it | every quote doubled, so the literal reads back as the value | high, not executed | SqlCompiler.ContainsTwoQuotesBreaksLiteral | SqlCompiler.ContainsLiteralReadsBack |
| backend/backserver.js:197-200 | `in` items and `between` bounds are quoted with no escaping at all | `{column: "BayCode", op: "in", value: ["x') OR ('1'='1"]}`: the list holds `'x'`, and `) OR ('1'='1')` follows as SQL text | item and bound quotes doubled like the other literals | high, not executed | SqlCompiler.InItemQuoteInjects | SqlCompiler.InListReadsBack |
| backend/backserver.js:186-191 | `COUNT(DISTINCT` is followed directly by the column | `{agg: "count_distinct", column: "ShipmentID"}` renders `COUNT(DISTINCTShipmentID)` | `COUNT(DISTINCT ShipmentID)` | high, not executed | SqlCompiler.CountDistinctFusedAsWritten | SqlCompiler.CountDistinctSeparated |
