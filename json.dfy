/**
 * The values the service hands to Flask's jsonify and receives from
 * request.get_json() and the Node.js configuration endpoint: the JSON
 * data model, without floating-point numbers.
 */
module JsonValue {
  import opened Wrappers

  datatype Json =
    | JNull
    | JBool(b: bool)
    | JInt(n: int)
    | JString(s: string)
    | JArray(items: seq<Json>)
    | JObject(fields: map<string, Json>)

  /** A list of strings as a JSON array of strings. */
  function Strings(ss: seq<string>): (r: seq<Json>)
    ensures |r| == |ss|
    ensures forall i :: 0 <= i < |ss| ==> r[i] == JString(ss[i])
  {
    seq(|ss|, i requires 0 <= i < |ss| => JString(ss[i]))
  }

  /** A string-to-string dictionary as a JSON object. */
  function StringMap(m: map<string, string>): (r: map<string, Json>)
    ensures r.Keys == m.Keys
    ensures forall k :: k in m ==> r[k] == JString(m[k])
  {
    map k | k in m :: JString(m[k])
  }

  /** Python's dict.get(key, default) on a decoded JSON object. */
  function Get(fields: map<string, Json>, key: string, default: Json): (r: Json)
    ensures key in fields ==> r == fields[key]
    ensures key !in fields ==> r == default
  {
    if key in fields then fields[key] else default
  }

  /**
   * Python's len() on a decoded JSON value: the number of code points of a
   * string, of elements of a list, of keys of a dict; None where len()
   * raises TypeError (null, booleans, numbers).
   */
  function PyLen(j: Json): (r: Option<nat>)
    ensures r.Some? <==> (j.JString? || j.JArray? || j.JObject?)
    ensures j.JArray? ==> r == Some(|j.items|)
  {
    match j
    case JString(s) => Some(|s|)
    case JArray(items) => Some(|items|)
    case JObject(fields) => Some(|fields|)
    case _ => None
  }

  /**
   * The integer a JSON value stands for in a Python comparison with an int:
   * an int itself, a bool as 0 or 1 (bool is a subclass of int); None where
   * the comparison raises TypeError.
   */
  function AsPyInt(j: Json): (r: Option<int>)
    ensures r.Some? <==> (j.JInt? || j.JBool?)
    ensures j.JInt? ==> r == Some(j.n)
    ensures j.JBool? ==> r == Some(if j.b then 1 else 0)
  {
    match j
    case JInt(n) => Some(n)
    case JBool(b) => Some(if b then 1 else 0)
    case _ => None
  }
}
