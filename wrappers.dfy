/** Option and Result datatypes used by the model: `Option` for Rust's
    `Option<T>` and `Result` for an operation that can fail. */
module Wrappers {

  datatype Option<+T> = None | Some(value: T)

  datatype Result<+R, +E> = Success(value: R) | Failure(error: E)
}
