/** Failure-carrying values: Python's `None` and its raised exceptions become data here. */
module Wrappers {

  /** An optional value; `None` stands for Python's `None` or for an oracle that could not answer. */
  datatype Option<+T> = None | Some(value: T)

  /** The outcome of a step that may raise: `Ok` carries the value, `Err` the exception. */
  datatype Result<+T, +E> = Ok(value: T) | Err(error: E)
}
