/**
 * The JSON-like values the workflow keeps in its state dictionaries and
 * session records, with Python's truthiness and `str()` of them.
 */
module Values {
  import opened Text

  datatype Value =
    | Null
    | Flag(b: bool)
    | Num(n: int)
    | Str(s: string)
    | Items(xs: seq<Value>)
    | Obj(fields: map<string, Value>)

  /** Python truthiness of a value. */
  predicate Truthy(v: Value)
  {
    match v
    case Null => false
    case Flag(b) => b
    case Num(n) => n != 0
    case Str(s) => s != ""
    case Items(xs) => xs != []
    case Obj(fields) => fields != map[]
  }

  /** A dictionary with string keys. */
  type Dict = map<string, Value>

  /** `d.get(key, default)`. */
  function Get(d: Dict, key: string, default: Value): (v: Value)
    ensures key in d ==> v == d[key]
    ensures key !in d ==> v == default
  {
    if key in d then d[key] else default
  }

  /** `d[key] == v`, with the key present. */
  predicate Holds(d: Dict, key: string, v: Value) { key in d && d[key] == v }

  /** `str(v)` for the scalar values; a container is shown by a placeholder. */
  function Show(v: Value): string
  {
    match v
    case Null => "None"
    case Flag(b) => if b then "True" else "False"
    case Num(n) => IntToString(n)
    case Str(s) => s
    case Items(_) => "[...]"
    case Obj(_) => "{...}"
  }
}
