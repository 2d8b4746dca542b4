/** The optional and fallible values shared by every module of the model. */
module Wrappers {

  /** An optional value: `None` stands for JavaScript's `undefined`. */
  datatype Option<+T> = None | Some(value: T)

  /** The outcome of a computation that may throw. */
  datatype Result<+R, +E> = Success(value: R) | Failure(error: E)
}
