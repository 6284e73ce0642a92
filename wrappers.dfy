/** Failure-compatible result type used for the exceptions the pool throws. */
module Wrappers {

  /** Either a value or the error that the corresponding JavaScript call throws. */
  datatype Result<+T, +E> = Success(value: T) | Failure(error: E)
}
