/** JSON-native data, as stored in the JSONB columns (object key order is not kept by JSONB). */
module JsonValues {
  import opened Wrappers

  datatype Json =
    | Null
    | Bool(b: bool)
    | Int(n: int)
    | Float(r: real)
    | Str(s: string)
    | Arr(items: seq<Json>)
    | Obj(fields: map<string, Json>)

  type Object = map<string, Json>

  /** `d.get(key)`: a missing key reads as `None`, which JSON spells `null`. */
  function Get(o: Object, key: string): Json {
    if key in o then o[key] else Null
  }

  /** Python's `bool(value)`. */
  predicate Truthy(j: Json) {
    match j
    case Null => false
    case Bool(b) => b
    case Int(n) => n != 0
    case Float(r) => r != 0.0
    case Str(s) => s != ""
    case Arr(items) => items != []
    case Obj(fields) => fields != map[]
  }

  /** Python's `isinstance(value, int)`: `bool` is a subclass of `int`. */
  predicate IsPyInt(j: Json) {
    j.Int? || j.Bool?
  }

  function PyInt(j: Json): int
    requires IsPyInt(j)
  {
    match j
    case Int(n) => n
    case Bool(b) => if b then 1 else 0
  }
}
