/** Option and Result, with the Python exception kinds the core raises. */
module Wrappers {

  datatype Option<+T> = None | Some(value: T)

  /** The exceptions that the modelled code raises or lets propagate. */
  datatype PyError =
    | ValueError
    | TypeError
    | AttributeError
    | NameError(name: string)          // a reference to a name that is not defined
    | InvalidFieldAttributeError
    | InvalidQueryError(message: string)

  /** A value, or the exception that was raised instead of producing it. */
  datatype Result<+T> = Success(value: T) | Failure(error: PyError)

  /** A statement that completes or raises. */
  datatype Outcome = Pass | Fail(error: PyError)
}
