/** Option and Result, the two shapes the Rust code returns and matches on. */
module Outcomes {

  /** Rust's `Option<T>`: a capture group that did or did not participate, a map lookup. */
  datatype Option<+T> = None | Some(value: T)

  /** Rust's `Result<T, E>`: an `Err` that the code `unwrap`s is a panic. */
  datatype Result<+T, +E> = Ok(value: T) | Err(error: E)
}
