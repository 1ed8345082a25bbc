/**
 * Decoded JSON values as the Python services see them after `json.loads` /
 * `request.get_json()`, and Python's `float()` applied to such a value.
 */
module JsonValues {
  import opened Options

  datatype Json =
    | JNull
    | JBool(b: bool)
    | JNum(n: real)
    | JStr(s: string)
    | JArr(items: seq<Json>)
    | JObj(fields: map<string, Json>)

  /**
   * `float(v)` for a decoded JSON value. Numbers convert to themselves, booleans to
   * 1.0 / 0.0 (a Python bool is an int), text is handed to `parseFloat`, which stands
   * for Python's number syntax and yields None where `float` raises ValueError;
   * null, arrays and objects make `float` raise TypeError (None here).
   */
  function ToFloat(v: Json, parseFloat: string -> Option<real>): (r: Option<real>)
    ensures v.JNum? ==> r == Some(v.n)
    ensures v.JBool? ==> r == Some(if v.b then 1.0 else 0.0)
    ensures v.JStr? ==> r == parseFloat(v.s)
    ensures v.JNull? || v.JArr? || v.JObj? ==> r.None?
  {
    match v
    case JNum(n) => Some(n)
    case JBool(b) => Some(if b then 1.0 else 0.0)
    case JStr(s) => parseFloat(s)
    case _ => None
  }
}
