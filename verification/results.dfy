/** Small failure-carrying datatypes shared by the model. */
module Results {

  /** A value that may be absent (the source's `null`). */
  datatype Option<T> = None | Some(value: T)

  /** The outcome of an operation that either succeeds or raises an error. */
  datatype Result<T, E> = Ok(value: T) | Err(error: E)

  /** `s ?? ""` in the source. */
  function OrEmpty(s: Option<string>): string
  {
    match s
    case Some(v) => v
    case None => ""
  }
}
