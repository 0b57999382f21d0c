/** Success/failure values used in place of the source's `Result` (CSharpFunctionalExtensions)
    and of the exceptions that the core catches and turns into error strings. */
module Wrappers {

  datatype Option<+T> = None | Some(value: T)

  /** A `Result<T>`: a value, or an error message (the source's `Result.Failure(message)`). */
  datatype Result<+T> = Success(value: T) | Failure(error: string)

  /** The value-less `Result` returned by `Start`. */
  datatype Outcome = Pass | Fail(error: string)
}
