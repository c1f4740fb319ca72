/** The two shapes every operation of the model answers in. */
module Common {

  /** A value that may be absent, as a JavaScript `null`/`undefined` field is. */
  datatype Option<+T> = None | Some(value: T)

  /** The outcome of a request: a value, or the named reason it was refused. */
  datatype Result<+T, +E> = Ok(value: T) | Err(error: E)

  function Min(a: int, b: int): int
  {
    if a <= b then a else b
  }
}
