/** Option and Result, the two failure-carrying shapes used throughout the model. */
module Wrappers {

  /** A value that may be absent: JavaScript's `undefined`/`null` next to a present value. */
  datatype Option<+T> = None | Some(value: T) {

    /** The carried value, or `default` when absent (JavaScript's `x ?? default`). */
    function GetOr(default: T): T {
      match this
      case Some(v) => v
      case None => default
    }
  }

  /** The outcome of an operation that either produces a value or fails with an error. */
  datatype Result<+T, +E> = Ok(value: T) | Err(error: E)
}
