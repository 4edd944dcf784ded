/** Option and Result, used for Python's `None` returns and raised exceptions. */
module Wrappers {

  datatype Option<+T> = None | Some(value: T)

  /** The outcome of a Python call that either returns a value or raises. */
  datatype Result<+T> = Ok(value: T) | Err(error: Error)

  /** The exception classes the modelled code raises. */
  datatype Error =
    | ValueError(message: string)
    | KeyError(key: string)
    | IndexError
    | NotFound(what: string)
}
