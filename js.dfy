/** JavaScript values and outcomes as the scratch-card module sees them. */
module Js {

  datatype Option<+T> = None | Some(value: T)

  /** The exceptions the module's code can raise in a browser. */
  datatype Error =
    | TypeError       // reading a property of `null`/`undefined`, or calling a non-function
    | IndexSizeError  // `getImageData` on a zero-width or zero-height rectangle
    | SecurityError   // `getImageData` on a canvas a cross-origin image has tainted

  datatype Result<+T> = Ok(value: T) | Err(error: Error)

  /** How an event handler ends: it returns, or it throws. */
  datatype Outcome = Pass | Fail(error: Error)

  /** The values an options object can hold. NaN is not represented. */
  datatype Value =
    | Undefined
    | Null
    | Bool(b: bool)
    | Num(n: real)
    | Str(s: string)
    | Func(id: nat)
    | Object

  /** JavaScript's ToBoolean. */
  predicate Truthy(v: Value)
  {
    match v
    case Undefined => false
    case Null => false
    case Bool(b) => b
    case Num(n) => n != 0.0
    case Str(s) => s != ""
    case Func(_) => true
    case Object => true
  }

  /** Property lookup on an object with no prototype chain: a missing key reads as `undefined`. */
  function Get(props: map<string, Value>, key: string): Value
  {
    if key in props then props[key] else Undefined
  }

  /**
   * An option meant to hold a callback is usable when it is falsy (no callback) or a function;
   * any other truthy value makes `value.bind(this)` throw while the module is constructed.
   */
  predicate CallbackOption(props: map<string, Value>, key: string)
  {
    !Truthy(Get(props, key)) || Get(props, key).Func?
  }
}
