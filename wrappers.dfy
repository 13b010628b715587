/** Option and Result values standing in for JavaScript's null/undefined and thrown errors. */
module Wrappers {

  /** A value that may be absent (`null` or a missing property). */
  datatype Option<+T> = None | Some(value: T) {

    /** The value if present, otherwise `default`. */
    function GetOr(default: T): T {
      match this
      case Some(v) => v
      case None => default
    }
  }

  /** The outcome of an operation that either returns a value or throws an error. */
  datatype Result<+T, +E> = Ok(value: T) | Err(error: E)
}
