/** Failure-carrying values used where the source raises an exception or
    returns None: an operation that may fail returns a `Result`, a check that
    only passes or fails returns an `Outcome`. */
module Results {

  datatype Option<+T> = None | Some(value: T)

  datatype Result<+T, +E> = Ok(value: T) | Err(error: E)

  datatype Outcome<+E> = Pass | Fail(error: E)
}
