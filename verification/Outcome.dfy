// Results of operations that throw in the original.

module Outcome {
  datatype Error =
    | InvalidArgument
    | LengthError
    | RuntimeError

  datatype Result<T> = Ok(value: T) | Err(error: Error)

  datatype Option<T> = None | Some(value: T)
}
