/** Failure-compatible results shared by the models: an optional value, and a
    value or an error (the model of a Python exception). */
module Outcome {

  datatype Option<+T> = None | Some(value: T)

  datatype Result<+T, +E> = Ok(value: T) | Err(error: E)

}
