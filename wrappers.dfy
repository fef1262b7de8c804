/** Option and Result, the two outcome types the model needs. */
module Wrappers {

  /** Rust's `Option<T>`. */
  datatype Option<+T> = None | Some(value: T)

  /** The outcome of a run that may panic: the value, or why it panicked. */
  datatype Result<+R, +E> = Success(value: R) | Failure(error: E)
}
