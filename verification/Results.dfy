/** Values shared by every module: optional values, and the outcome of a call that may throw. */
module Results {

  datatype Option<+T> = None | Some(value: T)

  /** A call either returns a value or throws an error whose message is `code`. */
  datatype Result<+T> = Ok(value: T) | Err(code: string)
}
