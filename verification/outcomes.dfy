/** Failure-carrying wrappers used throughout the model: an optional argument
    and the result of an operation that may throw. */
module Outcomes {

  /** An optional argument: `None` when the caller omitted it. */
  datatype Option<+T> = None | Some(value: T)

  /** The outcome of an operation that either returns a value or throws. */
  datatype Result<+R, +E> = Success(value: R) | Failure(error: E)
}
