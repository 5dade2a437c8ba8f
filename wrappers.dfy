/** Option and Result values, used wherever the JavaScript code returns
    `null`/`undefined`, `NaN`, or an error instead of a value. */
module Wrappers {

  datatype Option<+T> = None | Some(value: T) {

    /** The value, or `default` when there is none (JavaScript's `x ?? default`). */
    function GetOr(default: T): T {
      match this
      case Some(v) => v
      case None => default
    }
  }

  /** The outcome of a validation: the converted value, or the list of errors. */
  datatype Result<+R, +E> = Ok(value: R) | Err(error: E)
}
