/** Option for Python's `X | None`, and Result for a call that may raise. */
module Wrappers {

  datatype Option<+T> = None | Some(value: T)

  /** The outcome of a Python call: a value, or an exception with its message. */
  datatype Result<+T> = Ok(value: T) | Raise(message: string)
}
