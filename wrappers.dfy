/** Option and Result values shared by the model's modules. */
module Wrappers {

  /** Rust's `Option<T>`. */
  datatype Option<+T> = None | Some(value: T)

  /** Rust's `eyre::Result<T>`: a value, or an error report reduced to its message. */
  datatype Result<+T> = Ok(value: T) | Err(error: string)
}
