/** Request bodies and payloads as parsed JSON, with JavaScript's truthiness
    and `String(v)` conversion.  Numbers are integers in this model. */
module Json {
  import opened Wrappers
  import Text

  datatype Json =
    | JNull
    | JBool(b: bool)
    | JNum(n: int)
    | JStr(s: string)
    | JArr(items: seq<Json>)
    | JObj(fields: map<string, Json>)

  type Object = map<string, Json>

  /** `o[k]`, `undefined` (None) when the key is absent. */
  function Get(o: Object, k: string): (r: Option<Json>)
    ensures r.Some? <==> k in o
    ensures r.Some? ==> r.value == o[k]
  {
    if k in o then Some(o[k]) else None
  }

  /** `o?.a?.b…`: a dotted path such as `pickup.address`; undefined as soon as a step is missing
      or is not an object. */
  function At(o: Object, path: seq<string>): Option<Json>
    requires |path| >= 1
    decreases |path|
  {
    if path[0] !in o then None
    else if |path| == 1 then Some(o[path[0]])
    else match o[path[0]]
      case JObj(inner) => At(inner, path[1..])
      case _ => None
  }

  /** `v?.k`: a plain object's own field; undefined for every other value, since none of
      the names read through this has a meaning on strings, numbers or arrays. */
  function Member(v: Option<Json>, k: string): (r: Option<Json>)
    ensures r.Some? ==> v.Some? && v.value.JObj? && k in v.value.fields
  {
    match v
    case Some(JObj(f)) => Get(f, k)
    case _ => None
  }

  /** `undefined` or `null`: reading a property of either throws a TypeError. */
  predicate Nullish(v: Option<Json>)
  {
    v.None? || v.value.JNull?
  }

  /** JavaScript truthiness of a possibly-undefined value. */
  predicate Truthy(v: Option<Json>)
  {
    match v
    case None => false
    case Some(JNull) => false
    case Some(JBool(b)) => b
    case Some(JNum(n)) => n != 0
    case Some(JStr(s)) => |s| > 0
    case Some(JArr(_)) => true
    case Some(JObj(_)) => true
  }

  /** `String(v)` for a defined value. */
  function Stringify(v: Json): string
    decreases v
  {
    match v
    case JNull => "null"
    case JBool(b) => if b then "true" else "false"
    case JNum(n) => Text.IntToString(n)
    case JStr(s) => s
    case JArr(items) => JoinItems(items)
    case JObj(_) => "[object Object]"
  }

  /** `items.join(',')`, where `null` elements render as the empty string. */
  function JoinItems(items: seq<Json>): string
    decreases items
  {
    if |items| == 0 then ""
    else
      var head := if items[0] == JNull then "" else Stringify(items[0]);
      if |items| == 1 then head else head + "," + JoinItems(items[1..])
  }

  /** A template literal `${v}`: `undefined` renders as the word "undefined". */
  function Interp(v: Option<Json>): string
  {
    match v
    case None => "undefined"
    case Some(j) => Stringify(j)
  }

  /** `v || fallback` inside a template literal. */
  function InterpOr(v: Option<Json>, fallback: string): (r: string)
    ensures !Truthy(v) ==> r == fallback
    ensures Truthy(v) ==> r == Stringify(v.value)
  {
    if Truthy(v) then Stringify(v.value) else fallback
  }
}
