/** JSON values as Python's `json` reads them. Objects forget the order of their keys. */
module JsonTree {
  datatype Json =
    | Null
    | Bool(b: bool)
    | Num(n: int)
    | Frac(r: real)
    | Str(s: string)
    | Arr(items: seq<Json>)
    | Obj(fields: map<string, Json>)

  type Fields = map<string, Json>

  /** `not value`. */
  predicate Falsy(j: Json) {
    match j
    case Null => true
    case Bool(b) => !b
    case Num(n) => n == 0
    case Frac(r) => r == 0.0
    case Str(s) => s == ""
    case Arr(items) => items == []
    case Obj(fields) => fields == map[]
  }

  /** `fields.get(key)`; a missing key and a JSON null both read as None. */
  function Get(fields: Fields, key: string): Json {
    if key in fields then fields[key] else Null
  }

  /** `value.get(key) if isinstance(value, dict) else None`. */
  function Dig(j: Json, key: string): Json {
    if j.Obj? then Get(j.fields, key) else Null
  }

  /** Whether `for x in (value or [])` runs at all instead of raising. */
  predicate Iterable(j: Json) {
    Falsy(j) || j.Arr? || j.Obj? || j.Str?
  }

  /** The elements such a loop can treat as objects; the keys of an object and the characters of a string are none. */
  function Items(fields: Fields, key: string): seq<Json> {
    if Get(fields, key).Arr? then Get(fields, key).items else []
  }
}
