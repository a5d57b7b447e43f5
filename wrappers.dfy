/** Option and Result types standing for Python's None and for raised exceptions. */
module Wrappers {

  /** `None` stands for Python's None and for a NaN that the code treats as missing. */
  datatype Option<+T> = None | Some(value: T)

  /** The exception classes the modelled code raises. */
  datatype Error =
    | ValueError
    | KeyError
    | TypeError
    | NameError
    | ZeroDivisionError
    | FileNotFoundError

  /** The outcome of a call that either returns a value or raises. */
  datatype Result<+T> = Ok(value: T) | Err(error: Error)
}
