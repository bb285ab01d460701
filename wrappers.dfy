/** Option and Result, the failure-carrying values shared by every module. */
module Wrappers {

  /** A value that may be absent: Python's `None`, JavaScript's `undefined`. */
  datatype Option<+T> = None | Some(value: T) {

    /** The value, or `default` when absent (`x ?? default`). */
    function GetOr(default: T): T {
      match this
      case Some(v) => v
      case None => default
    }
  }

  /**
   * An optional sequence that is present and not empty: the truthiness of a
   * Python list and of a JavaScript string.
   */
  predicate NonEmpty<T>(o: Option<seq<T>>) {
    o.Some? && |o.value| > 0
  }

  /** The outcome of an operation that can raise. */
  datatype Result<+T, +E> = Success(value: T) | Failure(error: E)
}
