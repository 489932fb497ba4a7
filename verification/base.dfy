/** Small failure-carrying datatypes shared by the client and server models. */
module Base {

  /** A value that may be absent: JavaScript `undefined`/`null`, Python `None`. */
  datatype Option<+T> = None | Some(value: T)

  /** The outcome of an operation that the source can abort with an exception. */
  datatype Result<+T> = Ok(value: T) | Err(message: string)

  /** The smaller of two integers. */
  function Min(a: int, b: int): int { if a <= b then a else b }
}
