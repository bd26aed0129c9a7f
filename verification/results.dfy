/**
 * Option and Result, after Rust's `Option<T>` and `Result<T, E>`. Every
 * fallible operation of the model returns one of these instead of demanding
 * well-formed input from its caller.
 */
module Results {

  datatype Option<+T> = None | Some(value: T)

  datatype Result<+T, +E> = Ok(value: T) | Err(error: E)
}
