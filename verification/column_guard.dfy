/** `ALLOWED_COLS` and `guardColumns` (identical in both servers): every
    column a specification names must be one of the eleven columns of the
    shipments table. */
module ColumnGuard {

  import opened Wrappers
  import opened QuerySpec

  /** The eleven allow-listed columns. */
  const AllowedCols: set<string> := {
    "GrossQuantity", "FlowRate", "ShipmentCompartmentID", "BaseProductID",
    "BaseProductCode", "ShipmentID", "ShipmentCode", "ExitTime", "BayCode",
    "ScheduledDate", "CreatedTime"
  }

  /** The columns `guardColumns` collects, in the order it collects them:
      groupby, then metrics, then filters, then orderBy. */
  function ReferencedColumns(s: Spec): seq<string> {
    s.groupby
    + seq(|s.metrics|, i requires 0 <= i < |s.metrics| => s.metrics[i].column)
    + seq(|s.filters|, i requires 0 <= i < |s.filters| => s.filters[i].column)
    + seq(|s.orderBy|, i requires 0 <= i < |s.orderBy| => s.orderBy[i].column)
  }

  /** `cols.every((c) => ALLOWED_COLS.has(c))`. */
  function EveryAllowed(cols: seq<string>): (r: bool)
    ensures r <==> forall i :: 0 <= i < |cols| ==> cols[i] in AllowedCols
  {
    |cols| == 0 || (cols[0] in AllowedCols && EveryAllowed(cols[1..]))
  }

  /** `guardColumns(spec)`. */
  function GuardColumns(s: Spec): (r: bool)
    ensures r <==> ((forall i :: 0 <= i < |s.groupby| ==> s.groupby[i] in AllowedCols)
                    && (forall i :: 0 <= i < |s.metrics| ==> s.metrics[i].column in AllowedCols)
                    && (forall i :: 0 <= i < |s.filters| ==> s.filters[i].column in AllowedCols)
                    && (forall i :: 0 <= i < |s.orderBy| ==> s.orderBy[i].column in AllowedCols))
  {
    var cols := ReferencedColumns(s);
    var g, m, f := |s.groupby|, |s.metrics|, |s.filters|;
    assert forall i :: 0 <= i < |s.groupby| ==> cols[i] == s.groupby[i];
    assert forall i :: 0 <= i < |s.metrics| ==> cols[g + i] == s.metrics[i].column;
    assert forall i :: 0 <= i < |s.filters| ==> cols[g + m + i] == s.filters[i].column;
    assert forall i :: 0 <= i < |s.orderBy| ==> cols[g + m + f + i] == s.orderBy[i].column;
    EveryAllowed(cols)
  }

  predicate IsLetter(ch: char) {
    'a' <= ch <= 'z' || 'A' <= ch <= 'Z'
  }

  /** Every allow-listed name is a non-empty run of ASCII letters. */
  lemma AllowedColumnsAreLetters(c: string)
    requires c in AllowedCols
    ensures |c| > 0 && forall i :: 0 <= i < |c| ==> IsLetter(c[i])
  {
  }

  /** No allow-listed name contains a character the query text uses as
      punctuation, so an allow-listed name is always a single SQL identifier. */
  lemma AllowedColumnsArePlainIdentifiers(c: string)
    requires c in AllowedCols
    ensures ',' !in c && ' ' !in c && '\'' !in c && '_' !in c && '(' !in c && ')' !in c
  {
    AllowedColumnsAreLetters(c);
  }

  /** Only columns are guarded: giving a metric any alias leaves the
      verdict as it was. */
  lemma GuardIgnoresAlias(s: Spec, i: nat, a: string)
    requires i < |s.metrics|
    ensures GuardColumns(s.(metrics := s.metrics[i := s.metrics[i].(alias := Some(a))])) == GuardColumns(s)
  {
    var t := s.(metrics := s.metrics[i := s.metrics[i].(alias := Some(a))]);
    assert ReferencedColumns(t) == ReferencedColumns(s) by {
      assert seq(|t.metrics|, j requires 0 <= j < |t.metrics| => t.metrics[j].column)
          == seq(|s.metrics|, j requires 0 <= j < |s.metrics| => s.metrics[j].column);
    }
  }

  /** The empty specification passes the guard. */
  lemma EmptySpecPasses(limit: Option<int>, vega: Option<Json.Json>)
    ensures GuardColumns(Spec([], [], [], [], limit, vega))
  {
  }

  /** Ordering by a metric's default alias (`agg_column`) is always
      rejected: every default alias contains `_` and no allowed column does. */
  lemma OrderByDefaultAliasRejected(s: Spec, i: nat, m: Metric)
    requires i < |s.orderBy|
    requires s.orderBy[i].column == m.agg + "_" + m.column
    ensures !GuardColumns(s)
  {
    var c := s.orderBy[i].column;
    assert c[|m.agg|] == '_';
    if c in AllowedCols {
      AllowedColumnsArePlainIdentifiers(c);
    }
  }
}
