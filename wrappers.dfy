/** Values standing for Python's `None` and for an exception that escapes a call. */
module Wrappers {

  /** `None` or a present value. */
  datatype Option<+T> = None | Some(value: T)

  /** The outcome of a Python call that may raise: a returned value, or an exception. */
  datatype Try<+T> = Ok(value: T) | Raised
}
