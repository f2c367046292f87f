/** Failure-carrying datatypes shared by every module of the model: `Option`
    for Rust's `Option<T>` and `Result` for `Result<T, String>`. */
module Wrappers {

  datatype Option<+T> = None | Some(value: T) {

    /** Returns the value in Some, or `default` (Rust's `unwrap_or`). */
    function UnwrapOr(default: T): (r: T)
      ensures Some? ==> r == value
      ensures None? ==> r == default
    {
      match this
      case Some(v) => v
      case None => default
    }
  }

  datatype Result<+T, +E> = Success(value: T) | Failure(error: E)
}
