/** Error values for the Python exceptions the game script can raise, and a
    result type that carries either a value or one of them. */
module Wrappers {

  /** The exceptions the modelled code can raise: a missing dictionary key
      (`KeyError`) and an integer division or modulo by zero. */
  datatype Error = KeyError(key: string) | ZeroDivisionError

  datatype Result<T> = Ok(value: T) | Err(error: Error)

  datatype Option<T> = None | Some(value: T)
}
