/**
 * Python values as they occur in the metadata dictionaries, search results and
 * candidate papers that the modelled code passes around.
 */
module Records {

  datatype Value =
    | Null
    | Str(s: string)
    | Num(x: real)
    | Dict(fields: map<string, Value>)
    | List(items: seq<Value>)

  /** A Python `dict` with string keys. */
  type Record = map<string, Value>

  /** Python truthiness: `None`, `""`, `0`, `{}` and `[]` are false. */
  predicate Truthy(v: Value)
  {
    match v
    case Null => false
    case Str(s) => s != ""
    case Num(x) => x != 0.0
    case Dict(m) => m != map[]
    case List(xs) => xs != []
  }

  /** `d.get(key, default)`. */
  function Get(d: Record, key: string, default: Value): (v: Value)
    ensures key in d ==> v == d[key]
    ensures key !in d ==> v == default
  {
    if key in d then d[key] else default
  }
}
