/** Failure-carrying return types shared by the modules of this model. */
module Wrappers {

  /** Rust's `Option<T>`. */
  datatype Option<+T> = None | Some(value: T)

  /** Rust's `Result<T, ()>`: the error carries no payload in this code base. */
  datatype Result<+T> = Ok(value: T) | Err
}
