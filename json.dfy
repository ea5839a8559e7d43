/**
 * Decoded JSON as Python's `json` module delivers it (integers and floats kept
 * apart, objects as dicts), with the Python operations the modelled code applies
 * to such values: truthiness, `dict.get`, `str(v)` and `float(v)`.
 */
module Json {
  import opened Wrappers
  import opened Numerals
  import Decimal

  datatype Json =
    | JNull
    | JBool(b: bool)
    | JInt(i: int)
    | JFloat(f: real)
    | JStr(s: string)
    | JArr(items: seq<Json>)
    | JObj(fields: map<string, Json>)

  /** What an HTTP call handed to the model yields: a decoded body, or an exception
      (connection error, timeout, an error status, or a body that is not JSON). */
  datatype Fetch = Failed | Received(data: Json)

  /** `bool(v)` */
  predicate Truthy(v: Json) {
    match v
    case JNull => false
    case JBool(b) => b
    case JInt(i) => i != 0
    case JFloat(f) => f != 0.0
    case JStr(s) => s != []
    case JArr(a) => a != []
    case JObj(m) => m != map[]
  }

  /** `d.get(key, default)` */
  function Get(m: map<string, Json>, key: string, default: Json): (v: Json)
    ensures key in m ==> v == m[key]
    ensures key !in m ==> v == default
  {
    if key in m then m[key] else default
  }

  /** `str(v)`. The model spells out `str` of None, booleans, integers and strings;
      the text of floats, lists and dicts is `show(v)`, taken as given. */
  function Str(v: Json, show: Json -> string): (r: string)
    ensures v.JStr? ==> r == v.s
    ensures v.JInt? ==> r == IntToString(v.i)
  {
    match v
    case JNull => "None"
    case JBool(b) => if b then "True" else "False"
    case JInt(i) => IntToString(i)
    case JStr(s) => s
    case _ => show(v)
  }

  /** `float(v)`; `None` where Python raises `TypeError` or `ValueError`. */
  function Float(v: Json): (r: Option<real>)
    ensures v.JNull? || v.JArr? || v.JObj? ==> r.None?
    ensures v.JInt? ==> r == Some(v.i as real)
    ensures v.JFloat? ==> r == Some(v.f)
  {
    match v
    case JBool(b) => Some(if b then 1.0 else 0.0)
    case JInt(i) => Some(i as real)
    case JFloat(f) => Some(f)
    case JStr(s) => Decimal.ParseFloat(s)
    case _ => None
  }
}
