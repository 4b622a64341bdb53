/** JavaScript values as the two components hold them in state or read them
    from a JSON response, together with the truthiness rules that their `if`,
    `&&`, `||` and `!` apply. */
module Js {

  /** A JavaScript primitive. Numbers are integers here; objects and arrays do
      not occur in the fields the components inspect. */
  datatype Value = Undefined | Null | Bool(b: bool) | Num(n: int) | Str(s: string)

  /** A value that is either absent (`null`) or present. */
  datatype Option<T> = None | Some(value: T)

  /** ToBoolean: `undefined`, `null`, `false`, `0` and `""` are falsy,
      everything else is truthy. */
  predicate Truthy(v: Value) {
    match v
    case Undefined => false
    case Null => false
    case Bool(b) => b
    case Num(n) => n != 0
    case Str(s) => s != ""
  }

  /** `a || d`: the first operand when it is truthy, otherwise the second. */
  function Or(a: Value, d: Value): Value {
    if Truthy(a) then a else d
  }
}
