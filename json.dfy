/**
 * The JSON documents the application reads and writes, as values, and the
 * state of a file that is meant to hold one.
 */
module Json {

  /** A decoded JSON value (numbers are modelled as integers). */
  datatype Value =
    | JNull
    | JBool(b: bool)
    | JNum(n: int)
    | JStr(s: string)
    | JArr(items: seq<Value>)
    | JObj(fields: map<string, Value>)

  /** Python's `bool(v)` of the decoded value. */
  predicate Truthy(v: Value) {
    match v
    case JNull => false
    case JBool(b) => b
    case JNum(n) => n != 0
    case JStr(s) => s != []
    case JArr(items) => items != []
    case JObj(fields) => fields != map[]
  }

  /** `d.get(key, default)`. */
  function Get(d: map<string, Value>, key: string, default: Value): Value {
    if key in d then d[key] else default
  }

  /**
   * What opening and `json.load`-ing a file finds: no file, a file whose text
   * is not JSON, or a document.
   */
  datatype Stored = Missing | Corrupt | Doc(value: Value)
}
