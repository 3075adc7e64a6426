/** Failure-carrying values: the model's stand-in for JavaScript's `undefined` and thrown errors. */
module Wrappers {

  /** A value that may be absent (`undefined` / `null` on the JavaScript side). */
  datatype Option<+T> = None | Some(value: T)

  /** The outcome of an operation that either returns a value or throws an error. */
  datatype Result<+T, +E> = Ok(value: T) | Err(error: E)
}
