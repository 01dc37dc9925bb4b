/** Failure-carrying wrappers shared by the other modules. */
module Results {

  /** A value that may be absent: Python's `None` or a `re.Match` that did not happen. */
  datatype Option<+T> = None | Some(value: T)

  /** A value, or the exception a Python call raises instead of returning. */
  datatype Result<+T, +E> = Ok(value: T) | Err(error: E)
}
