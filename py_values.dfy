/** The shapes of Python values that cross the client's and the server's boundaries. */
module PyValues {
  import opened PyText

  /** A typed tool argument: what `parse_kv_pairs` produces and what the weather tools accept. */
  datatype Value = VBool(b: bool) | VInt(i: int) | VStr(s: string)

  /**
    A loosely shaped Python value, as found in tool results and tool listings:
    JSON-like data, plus objects that are not dictionaries and are read through
    their attributes.
  */
  datatype Json =
    | JNull
    | JBool(b: bool)
    | JInt(i: int)
    | JStr(s: string)
    | JList(items: seq<Json>)
    | JDict(entries: map<string, Json>)
    | JObject(attrs: map<string, Json>)

  /** Python truthiness (`bool(x)`); an object without `__bool__` or `__len__` is true. */
  predicate Truthy(j: Json) {
    match j
    case JNull => false
    case JBool(b) => b
    case JInt(i) => i != 0
    case JStr(s) => s != ""
    case JList(xs) => xs != []
    case JDict(m) => m != map[]
    case JObject(_) => true
  }

  /** `d.get(k)`. */
  function Get(d: map<string, Json>, k: string): Json {
    if k in d then d[k] else JNull
  }

  /** `a or b`. */
  function Or(a: Json, b: Json): (r: Json)
    ensures Truthy(r) <==> Truthy(a) || Truthy(b)
  {
    if Truthy(a) then a else b
  }

  /** `getattr(x, name, None)`: only objects carry attributes here. */
  function GetAttr(x: Json, name: string): Json {
    if x.JObject? then Get(x.attrs, name) else JNull
  }

  /**
    `str(x)`: exact for strings, `None`, booleans and integers; `repr` stands for
    the text Python gives lists, dictionaries and objects.
  */
  function Str(j: Json, repr: Json -> string): string {
    match j
    case JStr(s) => s
    case JNull => "None"
    case JBool(b) => if b then "True" else "False"
    case JInt(i) => DecimalString(i)
    case _ => repr(j)
  }
}
