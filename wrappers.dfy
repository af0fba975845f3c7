/** Failure-compatible wrappers used across the model. */
module Wrappers {

  /** A value that may be absent: JavaScript's `null`/`undefined` results. */
  datatype Option<T> = None | Some(value: T)

  /** The outcome of an operation that may throw: `Err` carries the error's message. */
  datatype Result<T, E> = Ok(value: T) | Err(error: E)
}
