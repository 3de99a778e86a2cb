/** Option and Result, the failure-carrying values the rest of the model returns. */
module Common {

  datatype Option<+T> = None | Some(value: T)

  /** An operation either yields a value or raises an error. */
  datatype Result<+T, +E> = Ok(value: T) | Err(error: E)
}
