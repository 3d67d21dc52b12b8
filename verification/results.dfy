/**
 Failure-carrying datatypes shared by every module of the model: `Option` for
 Rust's `Option<T>` and `Result` for Rust's `Result<T, E>`.
 */
module Results {

  datatype Option<+T> = None | Some(value: T)

  datatype Result<+R, +E> = Ok(value: R) | Err(error: E)

}
