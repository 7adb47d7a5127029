/** Optional values and results with an error, as used throughout the model. */
module Wrappers {

  /** An optional value: a field that may be absent (`rating?`, `image?`). */
  datatype Option<+T> = None | Some(value: T)

  /** The outcome of an operation that can fail. */
  datatype Result<+R, +E> = Success(value: R) | Failure(error: E)
}
