/** Option and Result datatypes shared by the modules of this project. */
module Wrappers {

  /** A value that may be absent. */
  datatype Option<T> = None | Some(value: T)

  /** The outcome of a step that can fail with an error of type E. */
  datatype Result<T, E> = Ok(value: T) | Err(error: E)
}
