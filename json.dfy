/**
 * JavaScript values as the front-end screens handle them: the JSON bodies of
 * the REST responses and the plain objects kept in React state.
 */
module Json {

  /**
   * A JavaScript value. Numbers are modelled as unbounded integers (every
   * number these screens handle is an identifier, a year, a month or a day).
   * `Undefined` is what reading a missing property gives.
   */
  datatype Value =
    | Undefined
    | Null
    | Bool(b: bool)
    | Num(n: int)
    | Str(s: string)
    | Obj(fields: map<string, Value>)

  /** A plain object: property name to value. A row of a table is one. */
  type Record = map<string, Value>

  /** `r[key]` in JavaScript: a missing property reads as `undefined`. */
  function Get(r: Record, key: string): (v: Value)
    ensures key in r ==> v == r[key]
    ensures key !in r ==> v == Undefined
  {
    if key in r then r[key] else Undefined
  }

  /** JavaScript truthiness: `undefined`, `null`, `false`, `0` and `''` are falsy. */
  predicate Truthy(v: Value)
  {
    match v
    case Undefined => false
    case Null => false
    case Bool(b) => b
    case Num(n) => n != 0
    case Str(s) => s != ""
    case Obj(_) => true
  }
}
