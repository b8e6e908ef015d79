/**
  The loose JSON values the client receives and the rows it produces hold,
  with the two Python conversions the normaliser applies to them:
  truthiness (`if v:`) and `float(v)`.
 */
module Json {
  import opened Wrappers

  /** A decoded JSON value. `Null` is Python's `None`; `Num` is a float. */
  datatype Json =
    | Null
    | Bool(b: bool)
    | Int(i: int)
    | Num(r: real)
    | Str(s: string)
    | Arr(items: seq<Json>)
    | Obj(fields: map<string, Json>)

  /** Python truthiness: `None`, `False`, zero, `""`, `[]` and `{}` are false. */
  predicate Truthy(v: Json) {
    match v
    case Null => false
    case Bool(b) => b
    case Int(i) => i != 0
    case Num(r) => r != 0.0
    case Str(s) => s != ""
    case Arr(items) => items != []
    case Obj(fields) => fields != map[]
  }

  /**
    Python's `float(v)`: `None` is a failed conversion (a raised exception).
    Conversion of a string is not modelled here; `parseStr` says what
    `float(s)` gives for the string `s`.
   */
  function ToFloat(v: Json, parseStr: string -> Option<real>): Option<real> {
    match v
    case Null => None
    case Bool(b) => Some(if b then 1.0 else 0.0)
    case Int(i) => Some(i as real)
    case Num(r) => Some(r)
    case Str(s) => parseStr(s)
    case Arr(_) => None
    case Obj(_) => None
  }
}
