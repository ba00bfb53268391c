/** Small failure-carrying datatypes shared by the other modules. */
module Wrappers {

  /** A value that may be absent (Python's `None`). */
  datatype Option<+T> = None | Some(value: T)

  /** The outcome of a step that either yields a value or fails with a reason. */
  datatype Result<+T, +E> = Ok(value: T) | Err(error: E)
}
