/**
 * JSON values as the browser and the server see them after `JSON.parse`, with
 * the JavaScript conversions the core applies to them: truthiness, property
 * lookup, `typeof x === "object"`, object spread, `Number(x)` and `String(x)`.
 * Objects are maps: the order of their keys is not modelled.
 */
module Json {
  import opened Wrappers
  import Text

  datatype Json =
    | JNull
    | JBool(b: bool)
    | JNum(x: real)
    | JStr(s: string)
    | JArr(items: seq<Json>)
    | JObj(fields: map<string, Json>)

  /** A plain object's own properties. */
  type Object = map<string, Json>

  /** JavaScript truthiness (`if (v)`, `v || fallback`, `.filter(Boolean)`). */
  predicate Truthy(v: Json) {
    match v
    case JNull => false
    case JBool(b) => b
    case JNum(x) => x != 0.0
    case JStr(s) => s != ""
    case _ => true
    }

  /** Truthiness of a lookup that may have found nothing (`undefined`). */
  predicate TruthyOpt(v: Option<Json>) {
    v.Some? && Truthy(v.value)
  }

  /** `v && typeof v === "object"`: a non-null object or array. */
  predicate IsObjectLike(v: Json) {
    v.JObj? || v.JArr?
  }

  /** `v[key]` for the named keys the core reads; only plain objects carry
      such properties, so every other value yields `undefined`. */
  function Get(v: Json, key: string): (r: Option<Json>)
    ensures r.Some? <==> v.JObj? && key in v.fields
  {
    if v.JObj? && key in v.fields then Some(v.fields[key]) else None
  }

  /** `v?.[key]`: optional chaining through a possibly missing value. */
  function GetOpt(v: Option<Json>, key: string): Option<Json> {
    if v.Some? then Get(v.value, key) else None
  }

  /** The own enumerable properties an object spread `{...v}` copies: an
      object's fields, or an array's elements under their decimal indices. */
  function SpreadFields(v: Json): Object
    requires IsObjectLike(v)
  {
    if v.JObj? then v.fields else IndexFields(v.items, 0)
  }

  function IndexFields(items: seq<Json>, from: nat): (m: Object)
    requires from <= |items|
    ensures forall k :: from <= k < |items| ==> Text.NatToString(k) in m
    decreases |items| - from
  {
    if from == |items| then map[]
    else IndexFields(items, from + 1)[Text.NatToString(from) := items[from]]
  }

  /** `Number(v)`; `None` stands for `NaN`. Arrays and objects are taken as
      `NaN`. */
  function ToNumber(v: Json): Option<real> {
    match v
    case JNull => Some(0.0)
    case JBool(b) => Some(if b then 1.0 else 0.0)
    case JNum(x) => Some(x)
    case JStr(s) => Text.JsNumber(s)
    case _ => None
  }

  /** `String(v)` where the model can render it: strings, booleans, `null`,
      integral numbers and plain objects. Fractional numbers and arrays are not
      rendered (`None`). */
  function ToText(v: Json): Option<string> {
    match v
    case JNull => Some("null")
    case JBool(b) => Some(if b then "true" else "false")
    case JNum(x) => if x == x.Floor as real then Some(Text.IntToString(x.Floor)) else None
    case JStr(s) => Some(s)
    case JObj(_) => Some("[object Object]")
    case JArr(_) => None
  }
}
