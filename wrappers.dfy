/** Option, Result and Outcome: the three shapes of a Ruby method's return here
    (nil or a value, a value or a raised exception, self or a raised exception). */
module Wrappers {

  datatype Option<+T> = None | Some(value: T)

  datatype Result<+T, +E> = Ok(value: T) | Err(error: E)

  /** The outcome of a method that returns the receiver or raises. */
  datatype Outcome<+E> = Pass | Fail(error: E)
}
