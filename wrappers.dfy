/** Option and Result, the two failure-carrying datatypes the model uses. */
module Wrappers {

  /** A value that may be absent: `undefined`/`null` in the source. */
  datatype Option<+T> = None | Some(value: T)

  /** The outcome of a step that may throw: its value, or the thrown error's message. */
  datatype Result<+T, +E> = Success(value: T) | Failure(error: E)
}
