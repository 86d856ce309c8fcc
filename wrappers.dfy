/** Option and Result, the two failure-carrying datatypes the model uses in
    place of Python's None / exceptions and JavaScript's null / NaN. */
module Wrappers {

  datatype Option<+T> = None | Some(value: T) {
    function GetOr(default: T): T {
      match this
      case Some(v) => v
      case None => default
    }
  }

  /** The outcome of a step that either produces a value or stops with an
      error message (a 400 answer in the views). */
  datatype Result<+T> = Ok(value: T) | Err(message: string)
}
