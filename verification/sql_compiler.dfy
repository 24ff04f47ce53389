/** The SQL text builder of the `/api/nlq` handler in backend/backserver.js:
    a SELECT list, one predicate per filter joined by AND, GROUP BY,
    ORDER BY and LIMIT, assembled as plain text and never executed.

    The builder is parameterised by a `Dialect`. `AsWritten` is what the
    source emits, quirks included; `Corrected` differs only where the
    source evidently meant something else (README, Findings): every quote
    of a literal doubled, `in`/`between` literals escaped too, and a space
    after `COUNT(DISTINCT`. */
module SqlCompiler {

  import opened Wrappers
  import opened Text
  import opened Json
  import Numbers
  import opened QuerySpec
  import opened ColumnGuard

  datatype Dialect = AsWritten | Corrected

  /** The six comparison operators, whose numbers render unquoted. */
  const Comparisons: seq<string> := ["=", "!=", "<", ">", "<=", ">="]

  const CountDistinct: string := "count_distinct"

  /** `m.alias || `${m.agg}_${m.column}``: an absent or empty alias falls
      back to `agg_column`. */
  function Alias(m: Metric): string {
    if m.alias.Some? && m.alias.value != "" then m.alias.value else m.agg + "_" + m.column
  }

  /** The aggregate call's opening text. */
  function AggOpen(d: Dialect, agg: string): string {
    if agg == CountDistinct then (if d.AsWritten? then "COUNT(DISTINCT" else "COUNT(DISTINCT ")
    else ToUpper(agg) + "("
  }

  function RenderMetric(d: Dialect, m: Metric): string {
    AggOpen(d, m.agg) + m.column + ")" + " AS " + Alias(m)
  }

  function RenderMetrics(d: Dialect, ms: seq<Metric>): (r: seq<string>)
    ensures |r| == |ms| && forall i :: 0 <= i < |ms| ==> r[i] == RenderMetric(d, ms[i])
  {
    seq(|ms|, i requires 0 <= i < |ms| => RenderMetric(d, ms[i]))
  }

  /** The select list: the groupby columns verbatim, then the metrics. */
  function SelectItems(d: Dialect, s: Spec): seq<string> {
    s.groupby + RenderMetrics(d, s.metrics)
  }

  /** Escaping of a `contains` or comparison literal: `replace("'", "''")`
      as written. */
  function EscapeValue(d: Dialect, v: string): string {
    if d.AsWritten? then DoubleFirstQuote(v) else DoubleAllQuotes(v)
  }

  /** Escaping of an `in` or `between` item: none as written. */
  function EscapeItem(d: Dialect, v: string): string {
    if d.AsWritten? then v else DoubleAllQuotes(v)
  }

  function QuotedItem(d: Dialect, v: Json): string {
    "'" + EscapeItem(d, ToJsString(v)) + "'"
  }

  /** A filter that renders as the always-true `1=1`: `in` without an array,
      `between` without a two-element array, or an operator none of the
      branches matches. */
  predicate IsNoOp(f: Filter) {
    if f.op == "in" then !f.value.JArr?
    else if f.op == "between" then !(f.value.JArr? && |f.value.items| == 2)
    else f.op != "contains" && f.op !in Comparisons
  }

  /** `col IN ('a','b')`, items joined by a bare comma. */
  function RenderIn(d: Dialect, column: string, items: seq<Json>): (r: string)
    ensures column <= r && |r| > 3
  {
    column + " IN (" + Join(seq(|items|, i requires 0 <= i < |items| => QuotedItem(d, items[i])), ",") + ")"
  }

  function RenderBetween(d: Dialect, column: string, lo: Json, hi: Json): (r: string)
    ensures column <= r && |r| > 3
  {
    column + " BETWEEN " + QuotedItem(d, lo) + " AND " + QuotedItem(d, hi)
  }

  function RenderContains(d: Dialect, column: string, v: Json): (r: string)
    ensures column <= r && |r| > 3
  {
    column + " ILIKE '%' || '" + EscapeValue(d, ToJsString(v)) + "' || '%'"
  }

  /** A number unquoted, anything else as a quoted string. */
  function RenderComparison(d: Dialect, column: string, op: string, v: Json): (r: string)
    requires |op| > 0
    ensures column <= r && |r| > 3
  {
    var val := if v.JNum? then Numbers.IntToString(v.n) else "'" + EscapeValue(d, ToJsString(v)) + "'";
    column + " " + op + " " + val
  }

  /** One WHERE predicate. */
  function RenderFilter(d: Dialect, f: Filter): (r: string)
    ensures r == "1=1" <==> IsNoOp(f)
    ensures !IsNoOp(f) ==> f.column <= r
  {
    if f.op == "in" && f.value.JArr? then RenderIn(d, f.column, f.value.items)
    else if f.op == "between" && f.value.JArr? && |f.value.items| == 2 then
      RenderBetween(d, f.column, f.value.items[0], f.value.items[1])
    else if f.op == "contains" then RenderContains(d, f.column, f.value)
    else if f.op in Comparisons then RenderComparison(d, f.column, f.op, f.value)
    else "1=1"
  }

  function RenderFilters(d: Dialect, fs: seq<Filter>): (r: seq<string>)
    ensures |r| == |fs| && forall i :: 0 <= i < |fs| ==> r[i] == RenderFilter(d, fs[i])
  {
    seq(|fs|, i requires 0 <= i < |fs| => RenderFilter(d, fs[i]))
  }

  function WhereClause(d: Dialect, s: Spec): (r: string)
    ensures r == "" <==> |s.filters| == 0
    ensures |s.filters| > 0 ==> " WHERE " <= r
  {
    if |s.filters| > 0 then " WHERE " + Join(RenderFilters(d, s.filters), " AND ") else ""
  }

  function GroupByClause(s: Spec): (r: string)
    ensures r == "" <==> |s.groupby| == 0
    ensures |s.groupby| > 0 ==> " GROUP BY " <= r
  {
    if |s.groupby| > 0 then " GROUP BY " + Join(s.groupby, ", ") else ""
  }

  function OrderItem(k: OrderKey): string {
    k.column + (if k.desc then " DESC" else " ASC")
  }

  function OrderItems(ks: seq<OrderKey>): (r: seq<string>)
    ensures |r| == |ks| && forall i :: 0 <= i < |ks| ==> r[i] == OrderItem(ks[i])
  {
    seq(|ks|, i requires 0 <= i < |ks| => OrderItem(ks[i]))
  }

  function OrderByClause(s: Spec): (r: string)
    ensures r == "" <==> |s.orderBy| == 0
    ensures |s.orderBy| > 0 ==> " ORDER BY " <= r
  {
    if |s.orderBy| > 0 then " ORDER BY " + Join(OrderItems(s.orderBy), ", ") else ""
  }

  /** `if (spec.limit)`: zero is falsy, so `limit: 0` emits no LIMIT. */
  function LimitClause(s: Spec): (r: string)
    ensures r == "" <==> s.limit.None? || s.limit.value == 0
    ensures r != "" ==> " LIMIT " <= r
  {
    if s.limit.Some? && s.limit.value != 0 then " LIMIT " + Numbers.IntToString(s.limit.value) else ""
  }

  /** The whole query text, clauses in their fixed order. */
  function Compile(d: Dialect, s: Spec): (r: string)
    ensures "SELECT " <= r
  {
    "SELECT " + Join(SelectItems(d, s), ", ") + " FROM shipments"
    + WhereClause(d, s) + GroupByClause(s) + OrderByClause(s) + LimitClause(s)
  }

  /** A filter value whose string form, and each item's when it is an
      array, holds no quote. */
  predicate QuoteFree(v: Json) {
    && '\'' !in ToJsString(v)
    && (v.JArr? ==> forall i :: 0 <= i < |v.items| ==> '\'' !in ToJsString(v.items[i]))
  }

  /** Without `count_distinct` and without quotes in filter values, the
      two builders emit the same text: the corrected builder changes
      nothing else. */
  lemma DialectsAgreeWithoutQuirks(s: Spec)
    requires forall i :: 0 <= i < |s.metrics| ==> s.metrics[i].agg != CountDistinct
    requires forall i :: 0 <= i < |s.filters| ==> QuoteFree(s.filters[i].value)
    ensures Compile(AsWritten, s) == Compile(Corrected, s)
  {
    assert SelectItems(AsWritten, s) == SelectItems(Corrected, s) by {
      assert RenderMetrics(AsWritten, s.metrics) == RenderMetrics(Corrected, s.metrics);
    }
    forall i | 0 <= i < |s.filters| ensures RenderFilter(AsWritten, s.filters[i]) == RenderFilter(Corrected, s.filters[i]) {
      SameFilterText(s.filters[i]);
    }
    assert RenderFilters(AsWritten, s.filters) == RenderFilters(Corrected, s.filters);
  }

  lemma SameFilterText(f: Filter)
    requires QuoteFree(f.value)
    ensures RenderFilter(AsWritten, f) == RenderFilter(Corrected, f)
  {
    var v := f.value;
    assert EscapeValue(AsWritten, ToJsString(v)) == EscapeValue(Corrected, ToJsString(v));
    if v.JArr? {
      var items := v.items;
      forall i | 0 <= i < |items| ensures QuotedItem(AsWritten, items[i]) == QuotedItem(Corrected, items[i]) {
        assert '\'' !in ToJsString(items[i]);
      }
      assert seq(|items|, i requires 0 <= i < |items| => QuotedItem(AsWritten, items[i]))
          == seq(|items|, i requires 0 <= i < |items| => QuotedItem(Corrected, items[i]));
    }
  }

  // ---------------------------------------------------------------------
  // Reading the query text back: order preservation of each clause.
  // ---------------------------------------------------------------------

  /** The GROUP BY list reads back as the groupby columns, in input order,
      none dropped, merged or reordered. */
  lemma GroupByPreservesOrder(s: Spec)
    requires GuardColumns(s) && |s.groupby| > 0
    ensures Split(GroupByClause(s)[|" GROUP BY "|..], ", ") == s.groupby
  {
    forall i | 0 <= i < |s.groupby| ensures ',' !in s.groupby[i] {
      AllowedColumnsArePlainIdentifiers(s.groupby[i]);
    }
    assert GroupByClause(s)[|" GROUP BY "|..] == Join(s.groupby, ", ");
    SplitJoin(s.groupby, ", ");
  }

  /** The WHERE predicates read back in input order, one per filter and
      joined by ` AND `, as long as no predicate holds ` AND ` itself (a
      `between` predicate always does). */
  lemma WherePreservesOrder(d: Dialect, s: Spec)
    requires |s.filters| > 0
    requires forall i :: 0 <= i < |s.filters| ==> SeparatorFree(RenderFilter(d, s.filters[i]), " AND ")
    ensures Split(WhereClause(d, s)[|" WHERE "|..], " AND ") == RenderFilters(d, s.filters)
  {
    var ps := RenderFilters(d, s.filters);
    assert WhereClause(d, s)[|" WHERE "|..] == Join(ps, " AND ");
    SplitJoinSeparatorFree(ps, " AND ");
  }

  /** A `between` predicate holds ` AND ` between its bounds, so reading
      the WHERE list back splits it in two. */
  lemma BetweenHoldsAnd(d: Dialect, f: Filter)
    requires f.op == "between" && f.value.JArr? && |f.value.items| == 2
    ensures !SeparatorFree(RenderFilter(d, f), " AND ")
  {
    var head := f.column + " BETWEEN " + QuotedItem(d, f.value.items[0]);
    assert RenderFilter(d, f) == head + " AND " + QuotedItem(d, f.value.items[1]);
    SeparatorInside(head, " AND ", QuotedItem(d, f.value.items[1]));
  }

  /** The guard looks at columns only: any non-empty alias, whatever text
      it holds, leaves the guard's verdict as it was and reaches the select
      list verbatim after ` AS `. */
  lemma AliasBypassesGuard(d: Dialect, s: Spec, i: nat, a: string)
    requires GuardColumns(s) && i < |s.metrics| && a != ""
    ensures var t := s.(metrics := s.metrics[i := s.metrics[i].(alias := Some(a))]);
            var item := SelectItems(d, t)[|t.groupby| + i];
            && GuardColumns(t)
            && |item| >= |a| + 4
            && item[|item| - |a| - 4..] == " AS " + a
  {
    GuardIgnoresAlias(s, i, a);
    var t := s.(metrics := s.metrics[i := s.metrics[i].(alias := Some(a))]);
    var m := t.metrics[i];
    assert SelectItems(d, t)[|t.groupby| + i] == RenderMetric(d, m);
    RenderMetricEndsWithAlias(d, m);
  }

  /** A rendered metric ends with ` AS ` and its alias. */
  lemma RenderMetricEndsWithAlias(d: Dialect, m: Metric)
    ensures var r := RenderMetric(d, m);
            |r| >= |Alias(m)| + 4 && r[|r| - |Alias(m)| - 4..] == " AS " + Alias(m)
  {
    var call := AggOpen(d, m.agg) + m.column + ")";
    var tail := " AS " + Alias(m);
    assert RenderMetric(d, m) == call + tail;
    assert (call + tail)[|call|..] == tail;
  }

  /** Reads one ORDER BY item: a column followed by ` DESC` or ` ASC`. */
  function ParseOrderItem(t: string): Option<OrderKey> {
    if |t| >= 5 && t[|t| - 5..] == " DESC" then Some(OrderKey(t[..|t| - 5], true))
    else if |t| >= 4 && t[|t| - 4..] == " ASC" then Some(OrderKey(t[..|t| - 4], false))
    else None
  }

  function ParseOrderItems(ts: seq<string>): Option<seq<OrderKey>> {
    if |ts| == 0 then Some([])
    else match (ParseOrderItem(ts[0]), ParseOrderItems(ts[1..]))
      case (Some(k), Some(ks)) => Some([k] + ks)
      case _ => None
  }

  /** Every order key renders as `col DESC` when desc is true and `col ASC`
      otherwise, recoverably. */
  lemma OrderItemRoundTrip(k: OrderKey)
    ensures ParseOrderItem(OrderItem(k)) == Some(k)
  {
    var t := OrderItem(k);
    if k.desc {
      assert t[|t| - 5..] == " DESC";
      assert t[..|t| - 5] == k.column;
    } else {
      assert t[|t| - 4..] == " ASC";
      assert t[|t| - 4 + 1] == 'A';
      assert t[..|t| - 4] == k.column;
    }
  }

  lemma {:induction false} ParseOrderItemsRoundTrip(ks: seq<OrderKey>)
    ensures ParseOrderItems(OrderItems(ks)) == Some(ks)
    decreases |ks|
  {
    if |ks| > 0 {
      OrderItemRoundTrip(ks[0]);
      assert OrderItems(ks)[1..] == OrderItems(ks[1..]);
      ParseOrderItemsRoundTrip(ks[1..]);
      assert [ks[0]] + ks[1..] == ks;
    }
  }

  /** The ORDER BY list reads back as exactly the orderBy keys, in input
      order, each with its direction. */
  lemma OrderByPreservesOrder(s: Spec)
    requires GuardColumns(s) && |s.orderBy| > 0
    ensures ParseOrderItems(Split(OrderByClause(s)[|" ORDER BY "|..], ", ")) == Some(s.orderBy)
  {
    var items := OrderItems(s.orderBy);
    forall i | 0 <= i < |items| ensures ',' !in items[i] {
      AllowedColumnsArePlainIdentifiers(s.orderBy[i].column);
    }
    assert OrderByClause(s)[|" ORDER BY "|..] == Join(items, ", ");
    SplitJoin(items, ", ");
    ParseOrderItemsRoundTrip(s.orderBy);
  }

  /** Upper-casing never introduces a punctuation character. */
  lemma ToUpperKeepsPunctuationOut(x: string, c: char)
    requires c !in x && !('A' <= c <= 'Z')
    ensures c !in ToUpper(x)
  {
    var r := ToUpper(x);
    forall i | 0 <= i < |r| ensures r[i] != c {
      assert x[i] != c;
    }
  }

  /** No aggregation name holds a comma. */
  lemma AggsHaveNoComma(a: string)
    requires a in Aggs
    ensures ',' !in a
  {
  }

  /** No aggregation name holds an opening parenthesis. */
  lemma AggsHaveNoParen(a: string)
    requires a in Aggs
    ensures '(' !in a
  {
  }

  /** A rendered metric holds a comma only if its alias does. */
  lemma MetricTextHasNoComma(d: Dialect, m: Metric)
    requires m.column in AllowedCols && ',' !in m.agg && ',' !in Alias(m)
    ensures ',' !in RenderMetric(d, m)
  {
    AllowedColumnsArePlainIdentifiers(m.column);
    var open := AggOpen(d, m.agg);
    AggOpenHasNoComma(d, m.agg);
    NotInConcat(',', open, m.column);
    NotInConcat(',', open + m.column, ")");
    NotInConcat(',', open + m.column + ")", " AS ");
    NotInConcat(',', open + m.column + ")" + " AS ", Alias(m));
  }

  lemma AggOpenHasNoComma(d: Dialect, agg: string)
    requires ',' !in agg
    ensures ',' !in AggOpen(d, agg)
  {
    if agg != CountDistinct {
      ToUpperKeepsPunctuationOut(agg, ',');
      NotInConcat(',', ToUpper(agg), "(");
    }
  }

  lemma NotInConcat(c: char, a: string, b: string)
    requires c !in a && c !in b
    ensures c !in a + b
  {
  }

  /** Where the groupby columns and the rendered metrics sit in the
      select list. */
  lemma SelectItemsLayout(d: Dialect, s: Spec)
    ensures |SelectItems(d, s)| == |s.groupby| + |s.metrics|
    ensures SelectItems(d, s)[..|s.groupby|] == s.groupby
    ensures forall i :: 0 <= i < |s.metrics| ==> SelectItems(d, s)[|s.groupby| + i] == RenderMetric(d, s.metrics[i])
  {
  }

  /** No select item holds a comma when no explicit alias does. */
  lemma SelectItemsHaveNoComma(d: Dialect, s: Spec)
    requires WellFormed(s) && GuardColumns(s)
    requires forall i :: 0 <= i < |s.metrics| ==> ',' !in Alias(s.metrics[i])
    ensures forall i :: 0 <= i < |SelectItems(d, s)| ==> ',' !in SelectItems(d, s)[i]
  {
    var items := SelectItems(d, s);
    var g := |s.groupby|;
    SelectItemsLayout(d, s);
    forall i | 0 <= i < |items| ensures ',' !in items[i] {
      if i < g {
        assert items[i] == s.groupby[i];
        AllowedColumnsArePlainIdentifiers(s.groupby[i]);
      } else {
        var m := s.metrics[i - g];
        assert items[i] == RenderMetric(d, m);
        AggsHaveNoComma(m.agg);
        MetricTextHasNoComma(d, m);
      }
    }
  }

  /** The select list reads back as the groupby columns followed by one
      item per metric, in input order, when no explicit alias contains a
      comma. */
  lemma SelectListPreservesOrder(d: Dialect, s: Spec)
    requires WellFormed(s) && GuardColumns(s)
    requires |s.groupby| + |s.metrics| > 0
    requires forall i :: 0 <= i < |s.metrics| ==> ',' !in Alias(s.metrics[i])
    ensures Split(Join(SelectItems(d, s), ", "), ", ") == SelectItems(d, s)
    ensures SelectItems(d, s)[..|s.groupby|] == s.groupby
    ensures forall i :: 0 <= i < |s.metrics| ==> SelectItems(d, s)[|s.groupby| + i] == RenderMetric(d, s.metrics[i])
  {
    SelectItemsLayout(d, s);
    SelectItemsHaveNoComma(d, s);
    SplitJoin(SelectItems(d, s), ", ");
  }

  /** The LIMIT clause carries the limit's decimal numeral, which reads back
      as the limit itself. */
  lemma LimitReadsBack(s: Spec)
    requires s.limit.Some? && s.limit.value != 0
    ensures Numbers.ParseInt(LimitClause(s)[|" LIMIT "|..]) == Some(s.limit.value)
  {
    assert LimitClause(s)[|" LIMIT "|..] == Numbers.IntToString(s.limit.value);
    Numbers.IntToStringRoundTrip(s.limit.value);
  }

  // ---------------------------------------------------------------------
  // Literals: what a quoted value reads back as.
  // ---------------------------------------------------------------------

  /** A corrected literal reads back as the value, leaving the text after
      it untouched. */
  lemma CorrectedLiteralReadsBack(v: string, rest: string)
    requires |rest| == 0 || rest[0] != '\''
    ensures ParseSqlLiteral("'" + EscapeItem(Corrected, v) + "'" + rest) == Some((v, rest))
  {
    var e := DoubleAllQuotes(v);
    var t := "'" + e + "'" + rest;
    assert EscapeItem(Corrected, v) == e;
    assert t[0] == '\'';
    assert t[1..] == e + "'" + rest;
    ReadQuotedDoubled(v, rest);
  }

  /** A corrected literal has an even number of quotes: none of the value's
      quotes can close it early. */
  lemma CorrectedLiteralBalanced(v: string)
    ensures Count("'" + EscapeItem(Corrected, v) + "'", '\'') % 2 == 0
  {
    var e := DoubleAllQuotes(v);
    assert EscapeItem(Corrected, v) == e;
    QuotedCount(e);
  }

  /** Quoting adds two quotes. */
  lemma QuotedCount(e: string)
    ensures Count("'" + e + "'", '\'') == Count(e, '\'') + 2
  {
    CountAppend("'", e, '\'');
    CountAppend("'" + e, "'", '\'');
    assert Count("'", '\'') == 1;
  }

  /** Corrected `contains`: the pattern literal reads back as the value. */
  lemma ContainsLiteralReadsBack(f: Filter)
    requires f.op == "contains"
    ensures ParseSqlLiteral(RenderFilter(Corrected, f)[|f.column + " ILIKE '%' || "|..])
            == Some((ToJsString(f.value), " || '%'"))
  {
    var v := ToJsString(f.value);
    assert RenderFilter(Corrected, f)[|f.column + " ILIKE '%' || "|..]
           == "'" + EscapeItem(Corrected, v) + "'" + " || '%'";
    CorrectedLiteralReadsBack(v, " || '%'");
  }

  /** Corrected comparison with a non-number: the literal reads back as the
      value's string form and closes the predicate. */
  lemma ComparisonLiteralReadsBack(f: Filter)
    requires f.op in Comparisons && !f.value.JNum?
    ensures ParseSqlLiteral(RenderFilter(Corrected, f)[|f.column| + |f.op| + 2..])
            == Some((ToJsString(f.value), ""))
  {
    var v := ToJsString(f.value);
    assert f.op != "in" && f.op != "between" && f.op != "contains";
    assert RenderFilter(Corrected, f)[|f.column| + |f.op| + 2..] == "'" + EscapeItem(Corrected, v) + "'" + "";
    CorrectedLiteralReadsBack(v, "");
  }

  /** A comparison with a number renders the numeral unquoted, and the
      numeral reads back as the number. */
  lemma ComparisonNumberUnquoted(d: Dialect, f: Filter)
    requires f.op in Comparisons && f.value.JNum?
    ensures Numbers.ParseInt(RenderFilter(d, f)[|f.column| + |f.op| + 2..]) == Some(f.value.n)
  {
    assert f.op != "in" && f.op != "between" && f.op != "contains";
    assert RenderFilter(d, f)[|f.column| + |f.op| + 2..] == Numbers.IntToString(f.value.n);
    Numbers.IntToStringRoundTrip(f.value.n);
  }

  /** A corrected quoted item reads back as the item's string form. */
  lemma QuotedItemReadsBack(x: Json, rest: string)
    requires |rest| == 0 || rest[0] != '\''
    ensures ParseSqlLiteral(QuotedItem(Corrected, x) + rest) == Some((ToJsString(x), rest))
  {
    CorrectedLiteralReadsBack(ToJsString(x), rest);
  }

  /** Corrected `between`: both bounds read back, in order. */
  lemma BetweenLiteralsReadBack(f: Filter)
    requires f.op == "between" && f.value.JArr? && |f.value.items| == 2
    ensures var hi := QuotedItem(Corrected, f.value.items[1]);
            && ParseSqlLiteral(RenderFilter(Corrected, f)[|f.column + " BETWEEN "|..])
               == Some((ToJsString(f.value.items[0]), " AND " + hi))
            && ParseSqlLiteral(hi) == Some((ToJsString(f.value.items[1]), ""))
  {
    var lo, hi := f.value.items[0], f.value.items[1];
    var ql, qh := QuotedItem(Corrected, lo), QuotedItem(Corrected, hi);
    var head := f.column + " BETWEEN ";
    var tail := " AND " + qh;
    assert RenderFilter(Corrected, f) == RenderBetween(Corrected, f.column, lo, hi) == head + ql + " AND " + qh;
    Regroup4(head, ql, " AND ", qh);
    DropPrefix(head, ql + tail);
    QuotedItemReadsBack(lo, tail);
    assert qh + "" == qh;
    QuotedItemReadsBack(hi, "");
  }

  /** Reads a comma-separated list of quoted literals closed by `)`. */
  function ParseLiteralList(t: string): Option<seq<string>>
    decreases |t|
  {
    ReadQuotedShortens(if |t| > 0 then t[1..] else t);
    match ParseSqlLiteral(t)
    case None => None
    case Some(p) =>
      if p.1 == ")" then Some([p.0])
      else if |p.1| > 0 && p.1[0] == ',' then
        match ParseLiteralList(p.1[1..])
        case None => None
        case Some(vs) => Some([p.0] + vs)
      else None
  }

  /** The parenthesised body of an `IN (...)` predicate. */
  function ParseInList(t: string): Option<seq<string>> {
    if t == ")" then Some([]) else ParseLiteralList(t)
  }

  function ItemStrings(items: seq<Json>): (r: seq<string>)
    ensures |r| == |items| && forall i :: 0 <= i < |items| ==> r[i] == ToJsString(items[i])
  {
    seq(|items|, i requires 0 <= i < |items| => ToJsString(items[i]))
  }

  lemma ParseLiteralListLast(t: string, v: string)
    requires ParseSqlLiteral(t) == Some((v, ")"))
    ensures ParseLiteralList(t) == Some([v])
  {
  }

  lemma ParseLiteralListCons(t: string, v: string, tail: string, vs: seq<string>)
    requires ParseSqlLiteral(t) == Some((v, "," + tail))
    requires ParseLiteralList(tail) == Some(vs)
    ensures ParseLiteralList(t) == Some([v] + vs)
  {
    assert ("," + tail)[1..] == tail;
  }

  /** Each value quoted the corrected way. */
  function QuoteAll(vs: seq<string>): (r: seq<string>)
    ensures |r| == |vs| && forall i :: 0 <= i < |vs| ==> r[i] == "'" + EscapeItem(Corrected, vs[i]) + "'"
  {
    seq(|vs|, i requires 0 <= i < |vs| => "'" + EscapeItem(Corrected, vs[i]) + "'")
  }

  lemma {:induction false} LiteralListReadsBack(vs: seq<string>)
    requires |vs| > 0
    ensures ParseLiteralList(Join(QuoteAll(vs), ",") + ")") == Some(vs)
    decreases |vs|
  {
    var q := QuoteAll(vs);
    var t := Join(q, ",") + ")";
    if |vs| == 1 {
      assert t == q[0] + ")";
      CorrectedLiteralReadsBack(vs[0], ")");
      ParseLiteralListLast(t, vs[0]);
      assert vs == [vs[0]];
    } else {
      var j := Join(q[1..], ",");
      QuoteAllTail(vs);
      LiteralListReadsBack(vs[1..]);
      ListStep(t, q[0], j, vs[0], vs[1..]);
      assert [vs[0]] + vs[1..] == vs;
    }
  }

  lemma QuoteAllTail(vs: seq<string>)
    requires |vs| > 0
    ensures QuoteAll(vs)[1..] == QuoteAll(vs[1..])
  {
  }

  /** One more quoted value in front of a list that reads back. */
  lemma ListStep(t: string, x: string, j: string, v: string, vs: seq<string>)
    requires x == "'" + EscapeItem(Corrected, v) + "'"
    requires ParseLiteralList(j + ")") == Some(vs)
    requires t == x + "," + j + ")"
    ensures ParseLiteralList(t) == Some([v] + vs)
  {
    var tail := j + ")";
    Regroup3(x, ",", tail);
    Regroup3(x + ",", j, ")");
    CorrectedLiteralReadsBack(v, "," + tail);
    ParseLiteralListCons(t, v, tail, vs);
  }

  /** Corrected `in`: the list reads back as every item's string form, in
      order. */
  lemma InListReadsBack(f: Filter)
    requires f.op == "in" && f.value.JArr?
    ensures ParseInList(RenderFilter(Corrected, f)[|f.column + " IN ("|..]) == Some(ItemStrings(f.value.items))
  {
    var items := f.value.items;
    var vs := ItemStrings(items);
    var q := QuoteAll(vs);
    assert seq(|items|, i requires 0 <= i < |items| => QuotedItem(Corrected, items[i])) == q;
    assert RenderFilter(Corrected, f)[|f.column + " IN ("|..] == Join(q, ",") + ")";
    if |items| > 0 {
      LiteralListReadsBack(vs);
      assert (Join(q, ",") + ")")[0] == '\'';
    }
  }

  // ---------------------------------------------------------------------
  // Aggregate calls: what a rendered metric reads back as.
  // ---------------------------------------------------------------------

  /** Splits `name(arg)rest` at the first `(` and the first `)` after it. */
  function ParseCall(t: string): Option<(string, string, string)> {
    var p := FirstIndexOf(t, '(');
    if p == |t| then None
    else
      var u := t[p + 1..];
      var q := FirstIndexOf(u, ')');
      if q == |u| then None else Some((t[..p], u[..q], u[q + 1..]))
  }

  lemma ParseCallOf(name: string, arg: string, rest: string)
    requires '(' !in name && ')' !in arg
    ensures ParseCall(name + "(" + arg + ")" + rest) == Some((name, arg, rest))
  {
    var t := name + "(" + arg + ")" + rest;
    assert t == name + ['('] + (arg + ")" + rest);
    FirstIndexAfterPrefix(name, '(', arg + ")" + rest);
    var u := t[|name| + 1..];
    assert u == arg + [')'] + rest;
    FirstIndexAfterPrefix(arg, ')', rest);
    assert t[..|name|] == name;
    assert u[..|arg|] == arg;
    assert u[|arg| + 1..] == rest;
  }

  /** A rendered metric other than `count_distinct` is a call whose name
      is the upper-cased aggregation and whose argument is the column,
      followed by ` AS ` and the alias. */
  lemma MetricCallReadsBack(d: Dialect, m: Metric)
    requires m.agg in Aggs && m.agg != CountDistinct && m.column in AllowedCols
    ensures ParseCall(RenderMetric(d, m)) == Some((ToUpper(m.agg), m.column, " AS " + Alias(m)))
  {
    AllowedColumnsArePlainIdentifiers(m.column);
    AggsHaveNoParen(m.agg);
    ToUpperKeepsPunctuationOut(m.agg, '(');
    var name, rest := ToUpper(m.agg), " AS " + Alias(m);
    assert AggOpen(d, m.agg) == name + "(";
    assert RenderMetric(d, m) == name + "(" + m.column + ")" + rest;
    ParseCallOf(name, m.column, rest);
  }

  /** A `count_distinct` metric is a `COUNT` call whose argument reads as
      the keyword `DISTINCT` followed by the column only when a space
      separates them: as written the two run together into one word. */
  lemma CountDistinctCallReadsBack(d: Dialect, m: Metric)
    requires m.agg == CountDistinct && m.column in AllowedCols
    ensures var c := ParseCall(RenderMetric(d, m));
            && c.Some?
            && c.value.0 == "COUNT"
            && c.value.2 == " AS " + Alias(m)
            && (d.Corrected? ==> Split(c.value.1, " ") == ["DISTINCT", m.column])
            && (d.AsWritten? ==> Split(c.value.1, " ") == ["DISTINCT" + m.column])
  {
    AllowedColumnsArePlainIdentifiers(m.column);
    var rest := " AS " + Alias(m);
    var kw := if d.AsWritten? then "DISTINCT" else "DISTINCT ";
    var arg := kw + m.column;
    CountDistinctShape(d, m, kw);
    NotInConcat(')', kw, m.column);
    ParseCallOf("COUNT", arg, rest);
    if d.AsWritten? {
      NotInConcat(' ', kw, m.column);
      SplitWithoutSeparator(arg, " ");
    } else {
      DistinctWordThenColumn(m.column);
    }
  }

  /** As written, a `count_distinct` metric's call argument is the one word
      `DISTINCT<column>`: SQL reads it as a column of that name, not as the
      keyword applied to the column. */
  lemma CountDistinctFusedAsWritten(m: Metric)
    requires m.agg == CountDistinct && m.column in AllowedCols
    ensures var c := ParseCall(RenderMetric(AsWritten, m));
            c.Some? && Split(c.value.1, " ") == ["DISTINCT" + m.column]
  {
    CountDistinctCallReadsBack(AsWritten, m);
  }

  /** Corrected, a `count_distinct` metric's call argument is the keyword
      `DISTINCT` followed by the column as a separate word. */
  lemma CountDistinctSeparated(m: Metric)
    requires m.agg == CountDistinct && m.column in AllowedCols
    ensures var c := ParseCall(RenderMetric(Corrected, m));
            c.Some? && c.value.0 == "COUNT" && Split(c.value.1, " ") == ["DISTINCT", m.column]
  {
    CountDistinctCallReadsBack(Corrected, m);
  }

  /** The `count_distinct` text as a `COUNT` call on the keyword and the
      column. */
  lemma CountDistinctShape(d: Dialect, m: Metric, kw: string)
    requires m.agg == CountDistinct
    requires kw == if d.AsWritten? then "DISTINCT" else "DISTINCT "
    ensures RenderMetric(d, m) == "COUNT" + "(" + (kw + m.column) + ")" + (" AS " + Alias(m))
  {
    assert AggOpen(d, m.agg) == "COUNT(" + kw;
    CallRegroup(kw, m.column, Alias(m));
  }

  lemma CallRegroup(kw: string, col: string, alias: string)
    ensures "COUNT(" + kw + col + ")" + " AS " + alias == "COUNT" + "(" + (kw + col) + ")" + (" AS " + alias)
  {
    assert "COUNT(" == "COUNT" + "(";
  }

  /** With the space, the argument splits into the keyword and the column. */
  lemma DistinctWordThenColumn(col: string)
    requires ' ' !in col
    ensures Split("DISTINCT " + col, " ") == ["DISTINCT", col]
  {
    assert "DISTINCT " + col == "DISTINCT" + " " + col;
    SplitAfterPiece("DISTINCT", " ", col);
    SplitWithoutSeparator(col, " ");
  }

  // ---------------------------------------------------------------------
  // The as-written escaping, on inputs that show its gaps.
  // ---------------------------------------------------------------------

  lemma ContainsLiteralText(d: Dialect, f: Filter)
    requires f.op == "contains"
    ensures RenderFilter(d, f)[|f.column + " ILIKE '%' || "|..] == "'" + EscapeValue(d, ToJsString(f.value)) + "' || '%'"
  {
  }

  /** Doubling only the first quote of `a'b'c` leaves the second quote
      closing the literal. */
  lemma FirstQuoteEscapedLiteral(a: string, b: string, c: string, tail: string)
    requires '\'' !in a && '\'' !in b && |c| > 0 && c[0] != '\''
    ensures ParseSqlLiteral("'" + DoubleFirstQuote(a + "'" + b + "'" + c) + tail)
            == Some((a + "'" + b, c + tail))
  {
    DoubleFirstQuoteTwice(a, b, c);
    var e := a + "''" + b + "'" + c;
    ReadEscapedThenClosed(a, b, c + tail);
    assert "'" + e + tail == "'" + a + "''" + b + "'" + (c + tail);
  }

  lemma DoubleFirstQuoteTwice(a: string, b: string, c: string)
    requires '\'' !in a
    ensures DoubleFirstQuote(a + "'" + b + "'" + c) == a + "''" + b + "'" + c
  {
    var rest := b + "'" + c;
    assert a + "'" + b + "'" + c == a + "'" + rest;
    DoubleFirstQuoteAfter(a, rest);
    assert a + "''" + rest == a + "''" + b + "'" + c;
  }

  lemma ReadEscapedThenClosed(a: string, b: string, t: string)
    requires '\'' !in a && '\'' !in b && (|t| == 0 || t[0] != '\'')
    ensures ParseSqlLiteral("'" + a + "''" + b + "'" + t) == Some((a + "'" + b, t))
  {
    var body := a + ("''" + (b + ("'" + t)));
    assert ("'" + a + "''" + b + "'" + t)[1..] == body;
    ReadQuotedCloses(t);
    ReadQuotedPlainPrefix(b, "'" + t);
    assert b + "" == b;
    ReadQuotedEscapedQuote(b + ("'" + t));
    ReadQuotedPlainPrefix(a, "''" + (b + ("'" + t)));
    assert a + ("'" + b) == a + "'" + b;
  }

  /** As written, a `contains` value with two quotes ends its literal at
      its second quote: what reads back is the value only up to there, and
      the rest of the value is left over as query text. */
  lemma ContainsSecondQuoteClosesLiteral(f: Filter, a: string, b: string, c: string)
    requires f.op == "contains" && ToJsString(f.value) == a + "'" + b + "'" + c
    requires '\'' !in a && '\'' !in b && |c| > 0 && c[0] != '\''
    ensures ParseSqlLiteral(RenderFilter(AsWritten, f)[|f.column + " ILIKE '%' || "|..])
            == Some((a + "'" + b, c + "' || '%'"))
  {
    ContainsLiteralText(AsWritten, f);
    FirstQuoteEscapedLiteral(a, b, c, "' || '%'");
  }

  /** The value `a'b'c` as a `contains` pattern: as written it reads
      back as `a'b`, and `c` is left over as query text
      (`ContainsLiteralReadsBack` gives the corrected reading, `a'b'c`). */
  lemma ContainsTwoQuotesBreaksLiteral(f: Filter)
    requires f.op == "contains" && f.value == JStr("a'b'c")
    ensures ParseSqlLiteral(RenderFilter(AsWritten, f)[|f.column + " ILIKE '%' || "|..]) == Some(("a'b", "c' || '%'"))
  {
    assert "a" + "'" + "b" == "a'b";
    assert "c" + "' || '%'" == "c' || '%'";
    assert "a'b" + "'" + "c" == "a'b'c";
    ContainsSecondQuoteClosesLiteral(f, "a", "b", "c");
  }

  /** A list that reads back starts with the first literal's value. */
  lemma ParseLiteralListHead(t: string)
    requires ParseLiteralList(t).Some?
    ensures ParseSqlLiteral(t).Some? && |ParseLiteralList(t).value| > 0
    ensures ParseLiteralList(t).value[0] == ParseSqlLiteral(t).value.0
  {
  }

  /** As written, an `in` item is quoted without escaping, so an item
      holding a quote closes its literal early: the literal reads back as
      the item's text before the quote, the rest of the item is left over
      as query text, and the list does not read back as the item. */
  lemma InItemQuoteCloses(f: Filter, x: Json, a: string, rest: string)
    requires f.op == "in" && f.value == JArr([x])
    requires ToJsString(x) == a + "'" + rest && '\'' !in a && |rest| > 0 && rest[0] != '\''
    ensures ParseSqlLiteral(RenderFilter(AsWritten, f)[|f.column + " IN ("|..]) == Some((a, rest + "')"))
    ensures ParseInList(RenderFilter(AsWritten, f)[|f.column + " IN ("|..]) != Some([ToJsString(x)])
  {
    SingleInItemText(AsWritten, f, x);
    UnescapedLiteralCloses(ToJsString(x), a, rest);
  }

  /** The text after `IN (` for a one-item list: the quoted item and the
      closing parenthesis. */
  lemma SingleInItemText(d: Dialect, f: Filter, x: Json)
    requires f.op == "in" && f.value == JArr([x])
    ensures RenderFilter(d, f)[|f.column + " IN ("|..] == QuotedItem(d, x) + ")"
  {
    var items := [x];
    var q := seq(|items|, i requires 0 <= i < |items| => QuotedItem(d, items[i]));
    assert q == [QuotedItem(d, x)];
    assert RenderFilter(d, f) == f.column + " IN (" + (QuotedItem(d, x) + ")");
  }

  /** An unescaped quote inside a literal ends it there. */
  lemma UnescapedLiteralCloses(v: string, a: string, rest: string)
    requires v == a + "'" + rest && '\'' !in a && |rest| > 0 && rest[0] != '\''
    ensures ParseSqlLiteral("'" + v + "'" + ")") == Some((a, rest + "')"))
    ensures ParseInList("'" + v + "'" + ")") != Some([v])
  {
    var lit := "'" + v + "'" + ")";
    assert lit[1..] == a + ("'" + (rest + "')"));
    ReadQuotedCloses(rest + "')");
    ReadQuotedPlainPrefix(a, "'" + (rest + "')"));
    assert a + "" == a;
    assert lit != ")" by { assert lit[0] == '\''; }
    if ParseLiteralList(lit).Some? {
      ParseLiteralListHead(lit);
      assert |a| < |v|;
    }
  }

  /** The item `x') OR ('1'='1` in an `in` filter: as written the
      literal closes after `x`, `) OR ('1'='1` is read as SQL, and the list
      does not read back as the item (`InListReadsBack` gives the corrected
      reading). */
  lemma InItemQuoteInjects(f: Filter)
    requires f.op == "in" && f.value == JArr([JStr("x') OR ('1'='1")])
    ensures ParseSqlLiteral(RenderFilter(AsWritten, f)[|f.column + " IN ("|..]) == Some(("x", ") OR ('1'='1')"))
    ensures ParseInList(RenderFilter(AsWritten, f)[|f.column + " IN ("|..]) != Some(["x') OR ('1'='1"])
  {
    var x := JStr("x') OR ('1'='1");
    assert ToJsString(x) == "x" + "'" + ") OR ('1'='1";
    InItemQuoteCloses(f, x, "x", ") OR ('1'='1");
    assert ") OR ('1'='1" + "')" == ") OR ('1'='1')";
  }

  /** A `contains` value with exactly one quote (`O'Brien`) has that
      quote doubled in either dialect. */
  lemma ContainsOneQuoteDoubled(d: Dialect, f: Filter, a: string, b: string)
    requires f.op == "contains" && ToJsString(f.value) == a + "'" + b
    requires '\'' !in a && '\'' !in b
    ensures RenderFilter(d, f) == f.column + " ILIKE '%' || '" + a + "''" + b + "' || '%'"
  {
    var v := a + "'" + b;
    DoubleFirstQuoteAfter(a, b);
    DoubleAllQuotesOne(a, b);
    var e := a + "''" + b;
    assert EscapeValue(d, v) == e;
    ContainsText(d, f);
    Regroup(f.column + " ILIKE '%' || '", a, "''", b, "' || '%'");
  }

  lemma ContainsText(d: Dialect, f: Filter)
    requires f.op == "contains"
    ensures RenderFilter(d, f) == f.column + " ILIKE '%' || '" + EscapeValue(d, ToJsString(f.value)) + "' || '%'"
  {
  }

  lemma Regroup(p: string, a: string, q: string, b: string, r: string)
    ensures p + (a + q + b) + r == p + a + q + b + r
  {
  }
}
