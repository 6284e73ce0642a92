/**
 * The JavaScript values that reach the pool's argument checks.
 * Only what `typeof` can tell apart matters to the pool; numbers are
 * modelled as integers (see README, "Left out").
 */
module JsValues {

  datatype JsValue =
    | Undefined
    | Null
    | Boolean(b: bool)
    | Number(n: int)
    | Text(s: string)
    | Object
    | Function(id: nat)  // a callable; `id` stands for its identity

  /** The result of JavaScript's `typeof` operator on `v`. */
  function TypeOf(v: JsValue): string
  {
    match v
    case Undefined => "undefined"
    case Null => "object"
    case Boolean(_) => "boolean"
    case Number(_) => "number"
    case Text(_) => "string"
    case Object => "object"
    case Function(_) => "function"
  }

  /** The exceptions the pool throws synchronously. */
  datatype Error = TypeError(message: string)
}
