/** Failure-carrying values used by every module of the model. */
module Wrappers {

  /** A value that may be absent: a JavaScript property that is `undefined`. */
  datatype Option<+T> = None | Some(value: T)

  /** The outcome of a step that may throw: `Failure` carries the thrown error's message. */
  datatype Result<+R, +E> = Success(value: R) | Failure(error: E)
}
