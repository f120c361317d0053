/** Option and Result, the two wrappers every module of the pipeline uses for
    Python's `None` returns and raised exceptions. */
module Prelude {

  /** A value that may be absent (Python's `X | None`). */
  datatype Option<+T> = None | Some(value: T)

  /** The outcome of an operation that may raise: `Err` carries which exception. */
  datatype Result<+T, +E> = Ok(value: T) | Err(error: E)
}
