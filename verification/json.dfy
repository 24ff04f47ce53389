/** A JSON value as JavaScript holds it after `JSON.parse`, and the
    JavaScript conversions the source applies to such values: truthiness,
    `String(v)` (also what a template literal `${v}` does) and the
    "is numeric" test. Numbers are integers in this model. An object is the
    list of its own properties in `Object.keys` order. */
module Json {

  import opened Wrappers
  import Numbers

  datatype Json =
    | JNull
    | JBool(b: bool)
    | JNum(n: int)
    | JStr(s: string)
    | JArr(items: seq<Json>)
    | JObj(entries: seq<(string, Json)>)

  /** Index of the first entry with key `k`, or -1. */
  function KeyIndex(es: seq<(string, Json)>, k: string): (i: int)
    ensures -1 <= i < |es|
    ensures i >= 0 ==> es[i].0 == k && forall j :: 0 <= j < i ==> es[j].0 != k
    ensures i < 0 ==> forall j :: 0 <= j < |es| ==> es[j].0 != k
  {
    if |es| == 0 then -1
    else if es[0].0 == k then 0
    else
      var j := KeyIndex(es[1..], k);
      if j < 0 then -1 else j + 1
  }

  /** The first entry with key `k` is at `j`. */
  lemma KeyIndexAt(es: seq<(string, Json)>, k: string, j: int)
    requires 0 <= j < |es| && es[j].0 == k
    requires forall i :: 0 <= i < j ==> es[i].0 != k
    ensures KeyIndex(es, k) == j
  {
  }

  /** Property access `obj[k]`; None stands for `undefined`. */
  function Get(es: seq<(string, Json)>, k: string): (r: Option<Json>)
    ensures r.Some? <==> exists j :: 0 <= j < |es| && es[j].0 == k
    ensures r.Some? ==> es[KeyIndex(es, k)] == (k, r.value)
  {
    var i := KeyIndex(es, k);
    if i < 0 then None else Some(es[i].1)
  }

  /** The object has an own property `k`. */
  predicate Has(es: seq<(string, Json)>, k: string) {
    KeyIndex(es, k) >= 0
  }

  /** JavaScript truthiness of a JSON value. */
  predicate Truthy(v: Json) {
    match v
    case JNull => false
    case JBool(b) => b
    case JNum(n) => n != 0
    case JStr(s) => s != ""
    case JArr(_) => true
    case JObj(_) => true
  }

  /** Truthiness of a possibly `undefined` value. */
  predicate OptTruthy(v: Option<Json>) {
    v.Some? && Truthy(v.value)
  }

  /** `String(v)`. */
  function ToJsString(v: Json): string
    decreases v, 1
  {
    match v
    case JNull => "null"
    case JBool(b) => if b then "true" else "false"
    case JNum(n) => Numbers.IntToString(n)
    case JStr(s) => s
    case JArr(items) => ItemsToString(items, v)
    case JObj(_) => "[object Object]"
  }

  /** `items.join(",")` as `Array.prototype.toString` does it: a null item
      contributes the empty string. */
  function ItemsToString(items: seq<Json>, ghost parent: Json): string
    requires forall i :: 0 <= i < |items| ==> items[i] < parent
    decreases parent, 0, |items|
  {
    if |items| == 0 then ""
    else
      var head := if items[0].JNull? then "" else ToJsString(items[0]);
      if |items| == 1 then head else head + "," + ItemsToString(items[1..], parent)
  }

  /** `typeof v === "number" || !isNaN(Number(v))`. `Number(null)` is 0 and
      `Number(true)` is 1; a string, array or object converts through its
      string form. */
  predicate IsNumeric(v: Json) {
    match v
    case JNum(_) => true
    case JNull => true
    case JBool(_) => true
    case _ => Numbers.NumberParses(ToJsString(v))
  }
}
