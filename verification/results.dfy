/** Failure-compatible wrappers used throughout the model: `Option` for a
    value that may be absent (Java's `null` / `Optional.empty()`), `Result` for
    an operation that either succeeds or raises an exception. */
module Results {

  datatype Option<+T> = None | Some(value: T)

  datatype Result<+T, +E> = Success(value: T) | Failure(error: E)
}
