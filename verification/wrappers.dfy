/** Optional values and error-carrying results, used where the source has an
    absent property, `undefined`, or a thrown `Error`. */
module Wrappers {

  /** An optional value: a property that may be missing from a record. */
  datatype Option<+T> = None | Some(value: T) {

    /** The value, or `default` when absent (the `x ?? default` of the source). */
    function GetOr(default: T): T {
      match this
      case Some(v) => v
      case None => default
    }
  }

  /** The outcome of an operation that may fail with an error value. */
  datatype Result<+R, +E> = Ok(value: R) | Err(error: E)
}
