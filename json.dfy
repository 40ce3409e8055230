/** The JSON values the crawler sends as request bodies, and Python's
    truthiness of them (`if data:`). Numbers are integers here; the client
    never sends a fractional number. */
module Json {

  datatype Json =
    | Null
    | Bool(b: bool)
    | Num(n: int)
    | Str(s: string)
    | Arr(elems: seq<Json>)
    | Obj(fields: seq<(string, Json)>)

  /** Python's `bool(value)` for the value a JSON document decodes to. */
  predicate Truthy(j: Json)
  {
    match j
    case Null => false
    case Bool(b) => b
    case Num(n) => n != 0
    case Str(s) => s != ""
    case Arr(elems) => elems != []
    case Obj(fields) => fields != []
  }
}
