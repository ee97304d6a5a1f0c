/**
 * JavaScript values as the front end handles them: JSON-like records
 * received from the API, with `undefined` kept as a value of its own
 * because object spreads copy `undefined`-valued keys and `===` compares
 * two missing properties as equal.
 */
module Js {
  import opened Wrappers
  import Strings

  datatype Json =
    | JUndef
    | JNull
    | JBool(b: bool)
    | JNum(n: int)
    | JStr(s: string)
    | JArr(items: seq<Json>)
    | JObj(fields: map<string, Json>)

  /** A plain object: property name to value. */
  type Record = map<string, Json>

  /** JavaScript truthiness (numbers are integers here, so NaN does not arise). */
  predicate Truthy(v: Json) {
    match v
    case JUndef => false
    case JNull => false
    case JBool(b) => b
    case JNum(n) => n != 0
    case JStr(s) => s != ""
    case JArr(_) => true
    case JObj(_) => true
  }

  /** `r.k`: a missing property reads as `undefined`. */
  function Get(r: Record, k: string): (v: Json)
    ensures k !in r ==> v == JUndef
  {
    if k in r then r[k] else JUndef
  }

  /** `a || b` on values. */
  function Or(a: Json, b: Json): (v: Json)
    ensures Truthy(a) ==> v == a
    ensures !Truthy(a) ==> v == b
  {
    if Truthy(a) then a else b
  }

  /** `o?.k` on an optional object. */
  function GetOpt(o: Option<Record>, k: string): (v: Json)
    ensures o.None? ==> v == JUndef
  {
    match o
    case None => JUndef
    case Some(r) => Get(r, k)
  }

  /** `{...a, ...b}`: every property of `b`, and those of `a` that `b` lacks. */
  function Spread(a: Record, b: Record): (r: Record)
    ensures r.Keys == a.Keys + b.Keys
    ensures forall k :: k in b ==> r[k] == b[k]
    ensures forall k :: k in a && k !in b ==> r[k] == a[k]
  {
    a + b
  }

  /**
   * The properties `JSON.stringify` keeps at the top level of an object, and
   * `Object.fromEntries(Object.entries(r).filter(([, v]) => v !== undefined))`.
   */
  function DropUndefined(r: Record): (d: Record)
    ensures d.Keys == set k | k in r && r[k] != JUndef
    ensures forall k :: k in d ==> d[k] == r[k]
  {
    map k | k in r && r[k] != JUndef :: r[k]
  }

  /** `String(v)`, as template strings and `localStorage.setItem` render a value. */
  function Display(v: Json): string
    decreases v
  {
    match v
    case JUndef => "undefined"
    case JNull => "null"
    case JBool(b) => if b then "true" else "false"
    case JNum(n) => Strings.IntToString(n)
    case JStr(s) => s
    case JObj(_) => "[object Object]"
    case JArr(items) =>
      Strings.Join(seq(|items|, i requires 0 <= i < |items| =>
        if items[i].JUndef? || items[i].JNull? then "" else Display(items[i])), ',')
  }

  /** A string-valued optional (`undefined` when absent) read with `||`: the text, or the default when falsy. */
  function OrText(o: Option<string>, default: string): (r: string)
    ensures o.Some? && o.value != "" ==> r == o.value
    ensures (o.None? || o.value == "") ==> r == default
  {
    if o.Some? && o.value != "" then o.value else default
  }

  /** `x || null` on an optional string: the text when non-empty, otherwise `null`. */
  function NonEmpty(o: Option<string>): (r: Option<string>)
    ensures r.Some? <==> (o.Some? && o.value != "")
    ensures r.Some? ==> r == o
  {
    if o.Some? && o.value != "" then o else None
  }

  /**
   * `a === b`. Objects and arrays compare by reference, and two values
   * decoded from separate responses are never the same reference.
   */
  predicate StrictEq(a: Json, b: Json) {
    a == b && !a.JObj? && !a.JArr?
  }

  /** `v?.toString()`: `undefined` for a missing value, otherwise its text. */
  function OptToString(v: Json): (r: Json)
    ensures r.JUndef? <==> (v.JUndef? || v.JNull?)
    ensures !r.JUndef? ==> r == JStr(Display(v))
  {
    if v.JUndef? || v.JNull? then JUndef else JStr(Display(v))
  }
}
