/** Failure-carrying results: the C program reports every failure by printing
    to stderr and calling `exit(1)`; the model returns a failure value instead. */
module Wrappers {

  datatype Option<+T> = None | Some(value: T)

  datatype Result<+R, +E> = Success(value: R) | Failure(error: E)

  /** Success without a value, or a failure value (the shape of `assert_or_exit`). */
  datatype Outcome<+E> = Pass | Fail(error: E)
}
