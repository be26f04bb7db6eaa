/** Option and Result, the two failure-carrying datatypes the model uses. */
module Wrappers {

  datatype Option<+T> = None | Some(value: T)

  /** Rust's `Result<T, E>`: a walk entry, a notification event or an outcome. */
  datatype Result<+T, +E> = Ok(value: T) | Err(error: E)
}
