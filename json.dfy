/**
 * Decoded JSON values as the scraper sees them after `json.loads` / `resp.json()`,
 * with the Python idioms it applies to them: truthiness, `x or default`,
 * `d.get(key)` and `str(x)`.
 */
module Json {
  import opened Base
  import Text

  /** A decoded JSON document. Objects are Python dicts keyed by string. */
  datatype Json =
    | JNull
    | JBool(b: bool)
    | JInt(i: int)
    | JStr(s: string)
    | JArr(items: seq<Json>)
    | JObj(fields: map<string, Json>)

  /** Python's `bool(x)`: `None`, `False`, `0`, `""`, `[]` and `{}` are false. */
  predicate Truthy(x: Json) {
    match x
    case JNull => false
    case JBool(b) => b
    case JInt(i) => i != 0
    case JStr(s) => s != []
    case JArr(items) => items != []
    case JObj(fields) => fields != map[]
  }

  /** Python's `x or default`. */
  function Or(x: Json, default: Json): Json {
    if Truthy(x) then x else default
  }

  /** The empty dict `{}`. */
  const EmptyObject: Json := JObj(map[])

  /** `d.get(key)` on a dict: the stored value, or `None` when the key is absent. */
  function Get(fields: map<string, Json>, key: string): Json {
    if key in fields then fields[key] else JNull
  }

  /** The one exception `.get` on a decoded value can raise. */
  datatype GetError = AttributeError

  /** `x.get(key)` on any decoded value: lists, strings, numbers, booleans and `None` have no `.get`. */
  function GetAttr(x: Json, key: string): (r: Result<Json, GetError>)
    ensures r.Err? <==> !x.JObj?
    ensures x.JObj? && key !in x.fields ==> r == Ok(JNull)
  {
    if x.JObj? then Ok(Get(x.fields, key)) else Err(AttributeError)
  }

  /**
   * Python's `str(x)` for a decoded value. Strings are themselves and integers
   * are their decimal digits; the repr of lists and dicts is rendered only as a
   * bracket placeholder.
   */
  function PyStr(x: Json): string {
    match x
    case JNull => "None"
    case JBool(b) => if b then "True" else "False"
    case JInt(i) => Text.IntToString(i)
    case JStr(s) => s
    case JArr(_) => "[...]"
    case JObj(_) => "{...}"
  }

  /** A truthy value never renders as the empty string. */
  lemma PyStrOfTruthy(x: Json)
    requires Truthy(x)
    ensures PyStr(x) != []
  {
  }
}
