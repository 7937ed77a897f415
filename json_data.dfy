/** Decoded JSON values, as Python's `json.loads` returns them, and Python truthiness. */
module JsonData {
  import opened Wrappers

  datatype Json =
    | JNull
    | JBool(b: bool)
    | JNum(n: real)
    | JStr(s: string)
    | JArr(items: seq<Json>)
    | JObj(fields: map<string, Json>)

  /** A decoded JSON object: a Python dict with string keys. */
  type Object = map<string, Json>

  /** `bool(v)` in Python. */
  predicate Truthy(v: Json) {
    match v
    case JNull => false
    case JBool(b) => b
    case JNum(n) => n != 0.0
    case JStr(s) => s != ""
    case JArr(items) => items != []
    case JObj(fields) => fields != map[]
  }

  /** `o.get(k)` */
  function Get(o: Object, k: string): Option<Json> {
    if k in o then Some(o[k]) else None
  }

  /** `o.get(k, '')` when the value is text; any other value reads as the empty text. */
  function GetText(o: Object, k: string): string {
    if k in o && o[k].JStr? then o[k].s else ""
  }
}
