/** Optional values and success-or-error results shared by the other modules. */
module Wrappers {

  /** Python's `None`-or-value for optional arguments (`min_val`, `dtype`, ...). */
  datatype Option<+T> = None | Some(value: T)

  /** The outcome of an operation that can raise: its value, or the error it raises. */
  datatype Result<+T, +E> = Ok(value: T) | Err(error: E)
}
