/** Optional values and error-carrying results, used for Go's nil pointers and `error` returns. */
module Wrappers {

  datatype Option<+T> = None | Some(value: T)

  datatype Result<+T, +E> = Success(value: T) | Failure(error: E)

  /** The empty success value of a Go function that returns only `error`. */
  datatype Unit = Unit
}
