/** Failure-carrying values shared by the model: a C pointer that may be
    null becomes an `Option`, an operation that reports an error code
    becomes a `Result`. */
module Outcomes {

  datatype Option<+T> = None | Some(value: T)

  datatype Result<+T, +E> = Ok(value: T) | Err(error: E)
}
