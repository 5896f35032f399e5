/** Wrappers for the Java values the model needs: a reference that may be null, a value or
    the exception that replaced it, and the outcome of a void call that may throw. */
module Wrappers {

  datatype Option<+T> = None | Some(value: T)

  datatype Result<+R, +E> = Success(value: R) | Failure(error: E)

  datatype Outcome<+E> = Pass | Fail(error: E)
}
