/** Result types shared by the models. */
module Wrappers {

  datatype Option<+T> = None | Some(value: T)

  /** How a Rust function that returns `Result` can end: a value, an error value,
      or a panic (an out-of-range slice or `split_at`). */
  datatype Outcome<+T, +E> = Ok(value: T) | Err(error: E) | Panic
}
