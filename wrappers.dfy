/** Java's nullable references and its exceptions, as values. */
module Wrappers {

  /** A reference that may be `null` (None). */
  datatype Option<+T> = None | Some(value: T)

  /** The outcome of an operation that may throw. */
  datatype Result<+T, +E> = Ok(value: T) | Err(error: E)
}
