/** Failure-carrying values shared by the other modules: an absent-or-present
    value (the sources' `null` / `undefined`) and a success-or-error result
    (the sources' thrown errors). */
module Optional {

  /** A value that may be missing; `None` stands for `null` or `undefined`. */
  datatype Option<+T> = None | Some(value: T)

  /** The outcome of an operation that can throw: its value or the error message. */
  datatype Result<+T, +E> = Ok(value: T) | Err(error: E)
}
