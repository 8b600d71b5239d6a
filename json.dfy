/**
 * A field of a parsed JSON request or response body, as the route handlers see
 * it after `await request.json()` and destructuring: a missing key reads as
 * `undefined`.
 */
module Json {

  datatype Value =
    | Undefined
    | Null
    | Bool(b: bool)
    | Num(n: int)
    | Str(s: string)
    | Arr(length: nat)
    | Obj

  /** JavaScript truthiness: what `if (v)` and `!v` test. */
  predicate Truthy(v: Value) {
    match v
    case Undefined => false
    case Null => false
    case Bool(b) => b
    case Num(n) => n != 0
    case Str(s) => s != ""
    case Arr(_) => true
    case Obj => true
  }
}
