/** Failure-carrying results shared by every module of the model. */
module Wrappers {

  /** A value that may be absent: Python's `None` or a present value. */
  datatype Option<+T> = None | Some(value: T)

  /** The exceptions the modelled Python code raises on its own error paths. */
  datatype PyError =
    | TypeError
    | KeyError
    | UnicodeEncodeError
    | NotImplementedError(message: string)
    | AssertionError(message: string)
    | MimeRenderException

  /** Either a returned value or a raised exception. */
  datatype Result<+T> = Success(value: T) | Failure(error: PyError)
}
