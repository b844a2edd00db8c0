/** Values decoded from the render server's JSON messages, with the few
    Python operations the monitors apply to them: `dict.get` with a default,
    truthiness, `len()` and assignment to a float property. */
module Json {
  import opened Wrappers

  datatype Json =
    | JNull
    | JBool(b: bool)
    | JNum(n: real)
    | JStr(s: string)
    | JArr(items: seq<Json>)
    | JObj(fields: map<string, Json>)

  /** `d.get(key, default)` on a dict `d`. */
  function Get(fields: map<string, Json>, key: string, default: Json): (r: Json)
    ensures key in fields ==> r == fields[key]
    ensures key !in fields ==> r == default
  {
    if key in fields then fields[key] else default
  }

  /** `v.get(key, default)` for any value: only a dict has `.get`. */
  function GetOn(v: Json, key: string, default: Json): (r: Result<Json>)
    ensures r.Raise? <==> !v.JObj?
    ensures v.JObj? ==> r == Ok(Get(v.fields, key, default))
  {
    match v
    case JObj(fields) => Ok(Get(fields, key, default))
    case _ => Raise(AttributeError)
  }

  /** Python truthiness of a decoded JSON value (`not v`). */
  predicate Truthy(v: Json) {
    match v
    case JNull => false
    case JBool(b) => b
    case JNum(n) => n != 0.0
    case JStr(s) => s != []
    case JArr(items) => items != []
    case JObj(fields) => fields != map[]
  }

  /** `len(v)`: defined for strings, lists and dicts; a `TypeError` otherwise. */
  function Len(v: Json): (r: Result<nat>)
    ensures r.Raise? <==> !(v.JStr? || v.JArr? || v.JObj?)
    ensures r.Raise? ==> r.error == TypeError
    ensures v.JStr? ==> r == Ok(|v.s|)
    ensures v.JArr? ==> r == Ok(|v.items|)
    ensures v.JObj? ==> r == Ok(|v.fields|)
  {
    match v
    case JStr(s) => Ok(|s|)
    case JArr(items) => Ok(|items|)
    case JObj(fields) => Ok(|fields|)
    case _ => Raise(TypeError)
  }

  /** Assigning `v` to a Blender float property declared with `min=0, max=100`:
      numbers and booleans are accepted and clamped to the hard limits,
      anything else raises `TypeError`. */
  function ToPercent(v: Json): (r: Result<real>)
    ensures r.Ok? <==> (v.JNum? || v.JBool?)
    ensures r.Raise? ==> r.error == TypeError
    ensures r.Ok? ==> 0.0 <= r.value <= 100.0
    ensures v.JNum? && 0.0 <= v.n <= 100.0 ==> r == Ok(v.n)
    ensures v.JNum? && v.n < 0.0 ==> r == Ok(0.0)
    ensures v.JNum? && v.n > 100.0 ==> r == Ok(100.0)
    ensures v.JBool? ==> r == Ok(if v.b then 1.0 else 0.0)
  {
    match v
    case JNum(n) => Ok(Clamp(n))
    case JBool(b) => Ok(if b then 1.0 else 0.0)
    case _ => Raise(TypeError)
  }

  function Clamp(x: real): real {
    if x < 0.0 then 0.0 else if x > 100.0 then 100.0 else x
  }
}
