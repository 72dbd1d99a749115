/** Failure-carrying values shared by the other modules. */
module Wrappers {

  /** A value that may be absent; `None` also stands for JavaScript's `null` and `undefined`. */
  datatype Option<+T> = None | Some(value: T)

  /** The outcome of an operation that may fail with a reason. */
  datatype Result<+R, +E> = Success(value: R) | Failure(error: E)
}
