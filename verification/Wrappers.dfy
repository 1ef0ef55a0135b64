/** The two result types shared by every model in this project. */
module Wrappers {

  /** A value the source may leave `undefined`. */
  datatype Option<+T> = None | Some(value: T)

  /** The outcome of an operation that throws in the source. */
  datatype Result<+T, +E> = Ok(value: T) | Err(error: E)
}
