/** The values `json.loads` hands back, as Python sees them. */
module Json {

  /** A parsed JSON value; integers and floats stay apart, as they do in Python. */
  datatype Value =
    | Null
    | Bool(b: bool)
    | Int(i: int)
    | Float(x: real)
    | Str(s: string)
    | Array(elems: seq<Value>)
    | Object(fields: Dict)

  /** A Python `dict` with string keys (the raw analysis record). */
  type Dict = map<string, Value>

  /** The name Python gives the type of a parsed value (`type(v).__name__`). */
  function PyTypeName(v: Value): string {
    match v
    case Null => "NoneType"
    case Bool(_) => "bool"
    case Int(_) => "int"
    case Float(_) => "float"
    case Str(_) => "str"
    case Array(_) => "list"
    case Object(_) => "dict"
  }
}
