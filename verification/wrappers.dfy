/** Failure-carrying values used throughout the model: `Option` stands for a
    nullable Java reference or `java.util.Optional`, `Result` for a value or
    the exception thrown in its place. */
module Wrappers {

  datatype Option<+T> = None | Some(value: T)

  datatype Result<+T, +E> = Success(value: T) | Failure(error: E)
}
