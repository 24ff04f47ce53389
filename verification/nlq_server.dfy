/** The `/api/nlq` handler of backend/backserver.js, after the language
    model has answered: parse, validate, guard, build the query text and
    reply with the first rows of the mock table.

    The model's reply arrives already parsed (`None` when `JSON.parse`
    throws); the mock rows are a parameter, since their `FlowRate` values
    are fractional. The query builder's dialect is a parameter: `AsWritten`
    is the source's own text, and `Corrected` the text with its quoting
    and `COUNT(DISTINCT` quirks repaired. */
module NlqServer {

  import opened Wrappers
  import opened Json
  import opened QuerySpec
  import opened ColumnGuard
  import opened SqlCompiler

  const InvalidJsonError: string := "LLM did not return valid JSON"
  const RejectedSpecError: string := "Spec failed validation or used disallowed columns"

  /** Rows returned when the specification carries no (or a zero) limit. */
  const DefaultRowCount: int := 10

  datatype Response =
    | BadRequest(error: string)
    | Reply(data: seq<Json>, suggestedVegaLite: Json, sql: string)

  function Min(a: int, b: int): int { if a <= b then a else b }
  function Max(a: int, b: int): int { if a >= b then a else b }

  /** `rows.slice(0, end)`: a negative end counts back from the end of
      the array, and an end past the array stops at it. */
  function SliceTo<T>(rows: seq<T>, end: int): (r: seq<T>)
    ensures |r| == (if end < 0 then Max(|rows| + end, 0) else Min(end, |rows|))
    ensures r == rows[..|r|]
  {
    var n := if end < 0 then Max(|rows| + end, 0) else Min(end, |rows|);
    rows[..n]
  }

  /** `spec.limit || 10`. */
  function RowLimit(s: Spec): int {
    if s.limit.Some? && s.limit.value != 0 then s.limit.value else DefaultRowCount
  }

  /** `validate(spec) && guardColumns(spec)`: the guard only ever sees a
      specification the schema accepted. */
  predicate Accepts(v: Json) {
    Validate(v) && GuardColumns(ToSpec(v))
  }

  /** The handler's reply for the model's parsed answer. */
  function HandleNlq(d: Dialect, parsed: Option<Json>, rows: seq<Json>): (r: Response)
    ensures parsed.None? ==> r == BadRequest(InvalidJsonError)
    ensures parsed.Some? && !Accepts(parsed.value) ==> r == BadRequest(RejectedSpecError)
    ensures r.Reply? <==> parsed.Some? && Accepts(parsed.value)
    ensures r.Reply? ==> r.data <= rows
    ensures r.Reply? ==> r.suggestedVegaLite.JObj? || r.suggestedVegaLite.JNull?
    ensures r.Reply? ==> parsed.Some? && r.sql == Compile(d, ToSpec(parsed.value))
  {
    match parsed
    case None => BadRequest(InvalidJsonError)
    case Some(v) =>
      if !Accepts(v) then BadRequest(RejectedSpecError)
      else
        var s := ToSpec(v);
        Reply(SliceTo(rows, RowLimit(s)), ReplyVega(s), Compile(d, s))
  }

  /** `spec.suggestedVegaLite || null`. */
  function ReplyVega(s: Spec): (r: Json)
    ensures WellFormed(s) ==> r.JObj? || r.JNull?
    ensures s.suggestedVegaLite.Some? && s.suggestedVegaLite.value.JObj? ==> r == s.suggestedVegaLite.value
    ensures s.suggestedVegaLite.None? || s.suggestedVegaLite.value.JNull? ==> r == JNull
  {
    if s.suggestedVegaLite.Some? && Truthy(s.suggestedVegaLite.value) then s.suggestedVegaLite.value else JNull
  }

  /** The reply to an accepted specification. */
  lemma AcceptedReply(d: Dialect, v: Json, rows: seq<Json>)
    requires Accepts(v)
    ensures var s := ToSpec(v);
            HandleNlq(d, Some(v), rows) == Reply(SliceTo(rows, RowLimit(s)), ReplyVega(s), Compile(d, s))
  {
  }

  /** Query text is only ever built from a specification every one of
      whose columns is allow-listed, and it is the rendering of that
      specification. */
  lemma SqlOnlyForGuardedSpecs(d: Dialect, parsed: Option<Json>, rows: seq<Json>)
    requires HandleNlq(d, parsed, rows).Reply?
    ensures parsed.Some? && Validate(parsed.value)
    ensures var s := ToSpec(parsed.value);
            && (forall i :: 0 <= i < |s.groupby| ==> s.groupby[i] in AllowedCols)
            && (forall i :: 0 <= i < |s.metrics| ==> s.metrics[i].column in AllowedCols)
            && (forall i :: 0 <= i < |s.filters| ==> s.filters[i].column in AllowedCols)
            && (forall i :: 0 <= i < |s.orderBy| ==> s.orderBy[i].column in AllowedCols)
            && HandleNlq(d, parsed, rows).sql == Compile(d, s)
  {
  }

  /** A specification naming a column outside the allow-list, anywhere,
      is answered with the rejection and no query text. */
  lemma DisallowedColumnRejected(d: Dialect, v: Json, rows: seq<Json>, c: string)
    requires Validate(v) && c !in AllowedCols
    requires var s := ToSpec(v);
             c in s.groupby
             || (exists i :: 0 <= i < |s.metrics| && s.metrics[i].column == c)
             || (exists i :: 0 <= i < |s.filters| && s.filters[i].column == c)
             || (exists i :: 0 <= i < |s.orderBy| && s.orderBy[i].column == c)
    ensures HandleNlq(d, Some(v), rows) == BadRequest(RejectedSpecError)
  {
  }

  /** With a non-negative limit, the reply holds the first
      `min(|rows|, limit || 10)` rows; over the three mock rows that is
      `min(3, limit || 10)`. */
  lemma RowsReturned(d: Dialect, v: Json, rows: seq<Json>)
    requires Accepts(v)
    requires var s := ToSpec(v); s.limit.None? || s.limit.value >= 0
    ensures var r := HandleNlq(d, Some(v), rows);
            var n := Min(|rows|, RowLimit(ToSpec(v)));
            r.Reply? && |r.data| == n && r.data == rows[..n]
    ensures |rows| == 3 ==>
              |HandleNlq(d, Some(v), rows).data|
              == Min(3, if LimitOf(v).Some? && LimitOf(v).value != 0 then LimitOf(v).value else 10)
  {
    AcceptedReply(d, v, rows);
    var s := ToSpec(v);
    assert s.limit == LimitOf(v);
    var data := SliceTo(rows, RowLimit(s));
    assert RowLimit(s) >= 0;
    assert |data| == Min(|rows|, RowLimit(s));
  }

  /** The reply's `suggestedVegaLite` is the specification's own object
      when it carries one, and null otherwise (absent or null). */
  lemma VegaPassedThrough(d: Dialect, v: Json, rows: seq<Json>)
    requires Accepts(v)
    ensures var r := HandleNlq(d, Some(v), rows);
            var g := Get(v.entries, "suggestedVegaLite");
            && (g.Some? && g.value.JObj? ==> r.suggestedVegaLite == g.value)
            && (g.None? || g.value.JNull? ==> r.suggestedVegaLite == JNull)
  {
    AcceptedReply(d, v, rows);
    var s := ToSpec(v);
    var g := Get(v.entries, "suggestedVegaLite");
    assert s.suggestedVegaLite == g;
  }
}
