/**
 * Option and Result values used in place of Python's `None` and of raised
 * exceptions. Only the exception's class is kept; messages are not modelled
 * except where the source formats them into a string that the model inspects.
 */
module Wrappers {

  datatype Option<+T> = None | Some(value: T)

  /** The Python exception classes raised by the modelled code. */
  datatype PyError =
    | ValueError
    | TypeError
    | IndexError
    | AttributeError
    | FileNotFoundError
    | FileExistsError
    | RuntimeError
    | EnvironmentError
    | InterruptedError

  datatype Result<+T> = Ok(value: T) | Err(error: PyError)

  /** A result without a value: the call either returned or raised. */
  datatype Outcome = Pass | Fail(error: PyError)
}
