/** Optional values and success/failure results, as returned by the parser and the lookup. */
module Wrappers {

  /** A value that may be absent; Python's `None` stands for `None` here. */
  datatype Option<+T> = None | Some(value: T)

  /** The outcome of an operation that can fail with an error of type `E`. */
  datatype Result<+R, +E> = Success(value: R) | Failure(error: E)
}
