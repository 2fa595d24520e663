/**
 * Decoded JSON values, as `json.loads` returns them: objects become maps from
 * key to value (Python dicts; the order of keys is not modelled), arrays become
 * sequences, and every number is a `real`.
 */
module JsonValues {
  import opened Wrappers

  datatype Json =
    | JNull
    | JBool(b: bool)
    | JNum(n: real)
    | JStr(s: string)
    | JArr(items: seq<Json>)
    | JObj(fields: map<string, Json>)

  /**
   * Python's `len(v)` on a decoded value: defined for strings, lists and
   * dicts; `None` where Python raises a TypeError (numbers, booleans, null).
   */
  function Len(j: Json): (r: Option<nat>)
    ensures r.Some? <==> (j.JStr? || j.JArr? || j.JObj?)
    ensures j.JArr? ==> r == Some(|j.items|)
    ensures j.JObj? ==> r == Some(|j.fields|)
  {
    match j
    case JStr(s) => Some(|s|)
    case JArr(items) => Some(|items|)
    case JObj(fields) => Some(|fields|)
    case _ => None
  }

  /** Builds the JSON value of a Python integer. */
  function Int(i: int): Json {
    JNum(i as real)
  }
}
