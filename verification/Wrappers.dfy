/** Failure and absence values shared by the models. */
module Wrappers {

  /** A value that may be missing: `null`, `undefined` or a lookup miss in the source. */
  datatype Option<+T> = None | Some(value: T)

  /** A value, or the exception the source throws instead of returning one. */
  datatype Result<+T, +E> = Ok(value: T) | Err(error: E)
}
