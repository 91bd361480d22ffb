/** Option and Result, the two failure-carrying shapes the Rust code returns. */
module Wrappers {

  /** Rust's `Option<T>`. */
  datatype Option<+T> = None | Some(value: T)

  /** Rust's `Result<T, E>` with the error carried as its message text. */
  datatype Result<+T> = Ok(value: T) | Err(message: string)
}
