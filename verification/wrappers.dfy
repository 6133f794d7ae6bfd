/** Optional values and error returns shared by every module. */
module Wrappers {

  /** A value that may be absent (JavaScript `undefined`, Python `None`). */
  datatype Option<+T> = None | Some(value: T)

  /** The outcome of an operation that can fail. */
  datatype Result<+T, +E> = Success(value: T) | Failure(error: E)
}
