/** Failure-carrying values: an optional value and the outcome of an operation that can raise. */
module Results {

  datatype Option<+T> = None | Some(value: T)

  /** `Err` stands for the exception the Python code raises; `Ok` for a normal return. */
  datatype Result<+T, +E> = Ok(value: T) | Err(error: E)
}
