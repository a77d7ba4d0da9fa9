/** Failure-compatible result types shared by the modules of this project. */
module Wrappers {

  /** A value that may be absent: the outcome of a parse that can fail,
      or of a search that can come back empty. */
  datatype Option<+T> = None | Some(value: T)

  /** Either a value or the reason there is none. */
  datatype Result<+T, +E> = Ok(value: T) | Err(error: E)
}
