/** Option and Result values used across the model, and the two abstract
    number services of the JavaScript runtime that the source relies on. */
module Wrappers {

  datatype Option<+T> = None | Some(value: T) {
    function GetOr(default: T): T {
      match this
      case Some(v) => v
      case None => default
    }
  }

  datatype Result<+R, +E> = Ok(value: R) | Err(error: E)

  /** The value of JavaScript's `parseInt`: an integer or NaN. */
  datatype IntValue = Int(n: int) | NaN

  /** The number services of the runtime, kept abstract: `parseFloat` gives
      None where JavaScript gives NaN, and `show` is `String(number)`. */
  datatype Numerals = Numerals(parseFloat: string -> Option<real>, show: real -> string)
}
