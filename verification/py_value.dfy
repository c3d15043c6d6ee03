/**
 * The Python values the handlers receive from decoded JSON bodies and keep in
 * record columns, with the parts of Python's semantics they rely on:
 * truthiness, `dict.get`, `a or b` and `str(v)`.
 */
module PyValue {

  /** A Python value. `Null` is `None`; `DateTime` is an opaque `datetime` instant. */
  datatype Value =
    | Null
    | Bool(b: bool)
    | Int(i: int)
    | Float(f: real)
    | Str(s: string)
    | List(items: seq<Value>)
    | Dict(entries: map<string, Value>)
    | DateTime(stamp: int)

  /** `bool(v)`: `None`, `False`, zero, and empty strings, lists and dicts are false. */
  predicate Truthy(v: Value) {
    match v
    case Null => false
    case Bool(b) => b
    case Int(i) => i != 0
    case Float(f) => f != 0.0
    case Str(s) => s != ""
    case List(items) => items != []
    case Dict(entries) => entries != map[]
    case DateTime(_) => true
  }

  /** `a or b` */
  function Or(a: Value, b: Value): Value {
    if Truthy(a) then a else b
  }

  /** `d.get(key, default)` */
  function GetOr(d: map<string, Value>, key: string, default: Value): Value {
    if key in d then d[key] else default
  }

  /** `d.get(key)` */
  function Get(d: map<string, Value>, key: string): Value {
    GetOr(d, key, Null)
  }

  /** `type(v).__name__`, as it appears in Python's error messages. */
  function TypeName(v: Value): string {
    match v
    case Null => "NoneType"
    case Bool(_) => "bool"
    case Int(_) => "int"
    case Float(_) => "float"
    case Str(_) => "str"
    case List(_) => "list"
    case Dict(_) => "dict"
    case DateTime(_) => "datetime"
  }

  /**
   * `str(v)`. A string is its own text; every other value is rendered by
   * `render`, which stands for Python's own formatting of numbers, lists and dicts.
   */
  function Text(v: Value, render: Value -> string): string {
    if v.Str? then v.s else render(v)
  }
}
