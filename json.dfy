/**
 * JSON values as the program handles them after `JSON.parse` / `json.loads`,
 * with the JavaScript notions the frontend applies to them: truthiness,
 * `typeof v === "object"`, property reads and `String(v)`.
 */
module Json {
  import opened Wrappers
  import opened Text
  import opened Dict

  /** A parsed JSON value. Numbers are integers in this model. */
  datatype Json =
    | JNull
    | JBool(b: bool)
    | JNum(n: int)
    | JStr(s: string)
    | JArr(items: seq<Json>)
    | JObj(fields: Dict<Json>)

  const EmptyObject: Json := JObj([])

  /** JavaScript truthiness: `null`, `false`, `0` and `""` are falsy; every array and object is truthy. */
  predicate Truthy(j: Json) {
    match j
    case JNull => false
    case JBool(b) => b
    case JNum(n) => n != 0
    case JStr(s) => s != ""
    case JArr(_) => true
    case JObj(_) => true
  }

  /** `v && typeof v === "object"`: arrays and objects, never `null`. */
  predicate IsObject(j: Json) {
    j.JArr? || j.JObj?
  }

  /**
   * The property read `v.k` (or `v?.k`) on a parsed value: an object's own key,
   * `undefined` (None) on anything else. Reading a property of `null` throws; the
   * callers deal with that case themselves.
   */
  function Get(j: Json, k: string): Option<Json> {
    if j.JObj? then Lookup(j.fields, k) else None
  }

  /** `Array.isArray(v) ? v : []` applied to an optional property. */
  function ArrayOrEmpty(v: Option<Json>): seq<Json> {
    if v.Some? && v.value.JArr? then v.value.items else []
  }

  /** `Object.entries(v)` on an object or array: an array's entries are keyed by their decimal index. */
  function Entries(j: Json): (es: Dict<Json>)
    requires IsObject(j)
    ensures j.JArr? ==> |es| == |j.items|
  {
    if j.JObj? then j.fields
    else seq(|j.items|, i requires 0 <= i < |j.items| => (NatToDecimal(i), j.items[i]))
  }

  /**
   * `String(v)`: arrays join their elements' strings with "," (a `null` element
   * becomes the empty string) and every plain object reads "[object Object]".
   */
  function JsString(j: Json): (r: string)
    ensures j.JStr? ==> r == j.s
  {
    match j
    case JNull => "null"
    case JBool(b) => if b then "true" else "false"
    case JNum(n) => IntToDecimal(n)
    case JStr(s) => s
    case JObj(_) => "[object Object]"
    case JArr(items) =>
      Join(seq(|items|, i requires 0 <= i < |items| =>
                 if items[i].JNull? then "" else JsString(items[i])), ",")
  }
}
