/** Failure-carrying values used to model Python's `None` and raised exceptions. */
module Results {

  /** An optional value: Python's `Optional[T]`. */
  datatype Option<+T> = None | Some(value: T)

  /** A computation that either returned a value or raised an exception
      (the error carries the exception's message). */
  datatype Result<+T, +E> = Success(value: T) | Failure(error: E)

  /** A call that returned normally or raised, when there is no value to return. */
  datatype Outcome<+E> = Pass | Fail(error: E)
}
