/**
 * JSON values as Python's `json.load` hands them over (dict, list, str,
 * int, bool, None), and the handful of Python operations the workflow
 * applies to them: `d[key]`, `d.get(key, default)`, `x[0]` and truthiness.
 * A Python operation that raises becomes `None`.
 */
module Json {
  import opened Wrappers

  datatype Json =
    | JNull
    | JBool(b: bool)
    | JNum(n: int)
    | JStr(s: string)
    | JArr(items: seq<Json>)
    | JObj(fields: map<string, Json>)

  /** `j[key]`: KeyError on a dict without the key, TypeError on anything but a dict. */
  function Field(j: Json, key: string): (r: Option<Json>)
    ensures r.Some? ==> j.JObj? && key in j.fields && r.value == j.fields[key]
    ensures r.None? ==> !j.JObj? || key !in j.fields
  {
    if j.JObj? && key in j.fields then Some(j.fields[key]) else None
  }

  /** `d.get(key, default)` on a dict. */
  function GetOr(fields: map<string, Json>, key: string, default: Json): (r: Json)
    ensures key in fields ==> r == fields[key]
    ensures key !in fields ==> r == default
  {
    if key in fields then fields[key] else default
  }

  /**
   * `j[0]`: the first item of a non-empty list, the first character of a
   * non-empty string; IndexError on an empty one, KeyError on a dict (JSON
   * keys are strings, never 0), TypeError on the rest.
   */
  function First(j: Json): (r: Option<Json>)
    ensures r.Some? <==> (j.JArr? && |j.items| > 0) || (j.JStr? && |j.s| > 0)
    ensures r.Some? && j.JArr? ==> r.value == j.items[0]
    ensures r.Some? && j.JStr? ==> r.value == JStr([j.s[0]])
  {
    match j
    case JArr(items) => if |items| > 0 then Some(items[0]) else None
    case JStr(s) => if |s| > 0 then Some(JStr([s[0]])) else None
    case _ => None
  }

  /** The string held by a JSON string, None for every other value. */
  function AsString(j: Json): (r: Option<string>)
    ensures r.Some? <==> j.JStr?
    ensures r.Some? ==> j == JStr(r.value)
  {
    if j.JStr? then Some(j.s) else None
  }

  /** Python's `bool(j)`: empty containers, the empty string, 0, False and None are false. */
  predicate Truthy(j: Json) {
    match j
    case JNull => false
    case JBool(b) => b
    case JNum(n) => n != 0
    case JStr(s) => s != ""
    case JArr(items) => items != []
    case JObj(fields) => fields != map[]
  }

  /** A JSON object with a single `"tweet"` field, the shape of a queue entry. */
  function TweetEntry(text: string): Json {
    JObj(map["tweet" := JStr(text)])
  }
}
