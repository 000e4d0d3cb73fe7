/** Optional values and fallible results shared by every module of the model. */
module Wrappers {

  /** A value that may be absent, as a Go result that is only meaningful under a condition. */
  datatype Option<+T> = None | Some(value: T)

  /** The Go `(value, error)` pair: either the value, or the error returned beside a zero value. */
  datatype Result<+T, +E> = Success(value: T) | Failure(error: E)
}
