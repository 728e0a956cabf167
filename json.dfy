/** A value produced by `JSON.parse`. */
module Json {
  import opened JsNumber
  import opened Wrappers

  datatype Json =
    | JNull
    | JBool(b: bool)
    | JNumber(n: Num)
    | JString(s: string)
    | JArray(elems: seq<Json>)
    | JObject(fields: map<string, Json>)

  /** `typeof v === 'object' && v !== null`: arrays are objects too. */
  predicate IsObject(v: Json) {
    v.JArray? || v.JObject?
  }

  /** JavaScript truthiness of a parsed value: `null`, `false`, `0`, `NaN`
      and `""` are falsy, every array and object is truthy. */
  predicate Truthy(v: Json) {
    match v
    case JNull => false
    case JBool(b) => b
    case JNumber(n) => n != NaN && n != Finite(0.0)
    case JString(s) => s != ""
    case _ => true
  }

  /** Property access `v.key`; `None` stands for `undefined`. Arrays and
      primitive values carry none of the named properties the converter reads. */
  function Get(v: Json, key: string): Option<Json> {
    if v.JObject? && key in v.fields then Some(v.fields[key]) else None
  }

  /** `a ?? b` on two property reads: `b` when `a` is `undefined` or `null`. */
  function Coalesce(a: Option<Json>, b: Option<Json>): Option<Json> {
    if a.None? || a == Some(JNull) then b else a
  }
}
