/**
 * The part of JavaScript's value semantics the strategy depends on: which values
 * are truthy, since every branch of the strategy is an `if (x)` test.
 */
module JsValues {

  /**
   * JavaScript values as they flow through the strategy's callbacks. Numbers
   * are integral (the strategy never produces fractions) and objects are
   * identified by an opaque reference.
   */
  datatype JsValue =
    | Undefined
    | Null
    | Bool(b: bool)
    | Number(n: int)
    | NaN
    | Str(s: string)
    | Object(ref: nat)

  /** ToBoolean: `undefined`, `null`, `false`, `0`, `NaN` and `''` are falsy. */
  predicate Truthy(v: JsValue) {
    match v
    case Undefined => false
    case Null => false
    case Bool(b) => b
    case Number(n) => n != 0
    case NaN => false
    case Str(s) => s != ""
    case Object(_) => true
  }
}
