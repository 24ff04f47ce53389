/** Field descriptors for the chart component: `inferType` and the
    descriptor list built from the first row (frontend/src/App.jsx and the
    earlier frontend/front.jsx, which agree), and `processShipmentData`
    (frontend/src/utils/chartUtils.js), which types by numeric-ness
    instead. */
module FieldInference {

  import opened Wrappers
  import opened Json
  import Numbers

  datatype SemanticType = Quantitative | Temporal | Nominal
  datatype AnalyticType = Dimension | Measure

  datatype FieldDescriptor = FieldDescriptor(
    fid: string,
    name: string,
    semanticType: SemanticType,
    analyticType: AnalyticType)

  /** `\d{4}-\d{2}-\d{2}` on exactly ten characters (`\d` is ASCII). */
  predicate IsDateShape(t: string)
    requires |t| == 10
  {
    && Numbers.IsDigit(t[0]) && Numbers.IsDigit(t[1]) && Numbers.IsDigit(t[2]) && Numbers.IsDigit(t[3])
    && t[4] == '-'
    && Numbers.IsDigit(t[5]) && Numbers.IsDigit(t[6])
    && t[7] == '-'
    && Numbers.IsDigit(t[8]) && Numbers.IsDigit(t[9])
  }

  /** The pattern matches at position `i`. */
  predicate DateAt(s: string, i: int) {
    0 <= i && i + 10 <= |s| && IsDateShape(s[i..i + 10])
  }

  /** The pattern matches somewhere in `s`. */
  ghost predicate HasDate(s: string) {
    exists i :: DateAt(s, i)
  }

  /** `/\d{4}-\d{2}-\d{2}/.test(s)`: the pattern is not anchored, so it
      may match anywhere. */
  function ContainsDate(s: string): (r: bool)
    ensures r <==> HasDate(s)
    decreases |s|
  {
    if |s| < 10 then
      assert forall i :: !DateAt(s, i);
      false
    else if IsDateShape(s[..10]) then
      assert DateAt(s, 0);
      true
    else
      var rest := ContainsDate(s[1..]);
      forall i ensures DateAt(s[1..], i) <==> DateAt(s, i + 1) {
        if 0 <= i && i + 10 <= |s| - 1 {
          assert s[1..][i..i + 10] == s[i + 1..i + 11];
        }
      }
      assert !DateAt(s, 0);
      assert rest ==> exists i :: DateAt(s, i) by {
        if rest {
          var i :| DateAt(s[1..], i);
          assert DateAt(s, i + 1);
        }
      }
      assert (exists i :: DateAt(s, i)) ==> rest by {
        if exists i :: DateAt(s, i) {
          var i :| DateAt(s, i);
          assert i != 0;
          assert DateAt(s[1..], i - 1);
        }
      }
      rest
  }

  /** `inferType(v)`: numbers first, then the date test on `String(v)`. */
  function InferType(v: Json): (t: SemanticType)
    ensures t == Quantitative <==> v.JNum?
    ensures t == Temporal <==> !v.JNum? && HasDate(ToJsString(v))
  {
    if v.JNum? then Quantitative
    else
      var s := ToJsString(v);
      if ContainsDate(s) then Temporal else Nominal
  }

  /** The pattern found anywhere inside a string, not just at its start,
      makes it temporal: `"2025-01-15T10:30:00"` is temporal, and so is
      `"shipped 2025-01-15"`. */
  lemma DateAnywhereIsTemporal(p: string, d: string, q: string)
    requires |d| == 10 && IsDateShape(d)
    ensures InferType(JStr(p + d + q)) == Temporal
  {
    var s := p + d + q;
    assert s[|p|..|p| + 10] == d;
    assert DateAt(s, |p|);
  }

  /** `Object.keys(row)` paired with `row[k]`: an object's own properties;
      a string's or an array's indices, with the character or item at each;
      nothing for any other value. */
  function RowEntries(row: Json): (es: seq<(string, Json)>)
    ensures row.JObj? ==> es == row.entries
    ensures row.JArr? ==> |es| == |row.items|
    ensures row.JArr? ==> forall i :: 0 <= i < |es| ==> es[i] == (Numbers.IntToString(i), row.items[i])
    ensures row.JStr? ==> |es| == |row.s|
    ensures row.JStr? ==> forall i :: 0 <= i < |es| ==> es[i] == (Numbers.IntToString(i), JStr([row.s[i]]))
    ensures !row.JObj? && !row.JArr? && !row.JStr? ==> es == []
  {
    match row
    case JObj(entries) => entries
    case JArr(items) => seq(|items|, i requires 0 <= i < |items| => (Numbers.IntToString(i), items[i]))
    case JStr(s) => seq(|s|, i requires 0 <= i < |s| => (Numbers.IntToString(i), JStr([s[i]])))
    case _ => []
  }

  function Describe(k: string, v: Json): FieldDescriptor {
    var t := InferType(v);
    FieldDescriptor(k, k, t, if t == Quantitative then Measure else Dimension)
  }

  /** `Object.keys(data[0] || {}).map(...)`: one descriptor per key of the
      first row, typed by `inferType`; a falsy first row or no rows gives
      none. */
  function BuildFields(data: seq<Json>): (fs: seq<FieldDescriptor>)
    ensures |data| == 0 ==> fs == []
    ensures |data| > 0 ==> |fs| == |RowEntries(data[0])|
    ensures |data| > 0 ==> forall i :: 0 <= i < |fs| ==>
              && fs[i].fid == RowEntries(data[0])[i].0
              && fs[i].name == fs[i].fid
              && fs[i].semanticType == InferType(RowEntries(data[0])[i].1)
    ensures forall i :: 0 <= i < |fs| ==> (fs[i].analyticType == Measure <==> fs[i].semanticType == Quantitative)
  {
    if |data| == 0 then []
    else
      var es := RowEntries(data[0]);
      seq(|es|, i requires 0 <= i < |es| => Describe(es[i].0, es[i].1))
  }

  /** `processShipmentData(data)`: one descriptor per key of the first row,
      quantitative and a measure exactly when the value is numeric, and the
      rows unchanged. `Object.keys(null)` throws, which is None here. */
  function ProcessShipmentData(data: seq<Json>): (r: Option<(seq<FieldDescriptor>, seq<Json>)>)
    ensures r.None? <==> |data| > 0 && data[0].JNull?
    ensures r.Some? ==> r.value.1 == data
    ensures r.Some? && |data| == 0 ==> r.value.0 == []
    ensures r.Some? && |data| > 0 ==>
              var es := RowEntries(data[0]);
              var fs := r.value.0;
              && |fs| == |es|
              && forall i :: 0 <= i < |fs| ==>
                   && fs[i].fid == es[i].0 && fs[i].name == es[i].0
                   && (fs[i].semanticType == Quantitative <==> IsNumeric(es[i].1))
                   && (fs[i].semanticType == Nominal <==> !IsNumeric(es[i].1))
                   && (fs[i].analyticType == Measure <==> fs[i].semanticType == Quantitative)
  {
    if |data| == 0 then Some(([], data))
    else if data[0].JNull? then None
    else
      var es := RowEntries(data[0]);
      var fs := seq(|es|, i requires 0 <= i < |es| =>
        var numeric := IsNumeric(es[i].1);
        FieldDescriptor(es[i].0, es[i].0,
                        if numeric then Quantitative else Nominal,
                        if numeric then Measure else Dimension));
      Some((fs, data))
  }

  /** Every number the first row holds is typed the same way by both
      builders: quantitative, a measure. */
  lemma NumbersAgree(data: seq<Json>, i: nat)
    requires |data| > 0 && !data[0].JNull? && i < |RowEntries(data[0])|
    requires RowEntries(data[0])[i].1.JNum?
    ensures BuildFields(data)[i].semanticType == Quantitative
    ensures ProcessShipmentData(data).value.0[i].semanticType == Quantitative
  {
  }

  /** An empty string converts to 0, so `processShipmentData` types it
      quantitative, while `inferType` finds no date in it and types it
      nominal. */
  lemma EmptyStringDisagrees(data: seq<Json>, i: nat)
    requires |data| > 0 && !data[0].JNull? && i < |RowEntries(data[0])|
    requires RowEntries(data[0])[i].1 == JStr("")
    ensures BuildFields(data)[i].semanticType == Nominal
    ensures ProcessShipmentData(data).value.0[i].semanticType == Quantitative
  {
    assert !ContainsDate("");
  }

  /** `processShipmentData` never types a field temporal: a date is
      nominal there, and temporal for `inferType`. */
  lemma DatesDisagree(data: seq<Json>, i: nat, p: string, d: string, q: string)
    requires |data| > 0 && !data[0].JNull? && i < |RowEntries(data[0])|
    requires RowEntries(data[0])[i].1 == JStr(p + d + q) && |d| == 10 && IsDateShape(d)
    ensures BuildFields(data)[i].semanticType == Temporal
    ensures ProcessShipmentData(data).value.0[i].semanticType != Temporal
  {
    DateAnywhereIsTemporal(p, d, q);
  }
}
