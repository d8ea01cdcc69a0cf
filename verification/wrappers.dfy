/** Optional values and error results, standing in for Python's `None` and raised exceptions. */
module Wrappers {

  /** A value that may be absent (a pandas NaN cell, a missing form field, a missing column). */
  datatype Option<+T> = None | Some(value: T)

  /** The outcome of an operation that raises in the source on some inputs. */
  datatype Result<+T, +E> = Ok(value: T) | Err(error: E)
}
