/** Optional values, results and the exceptions the shop backend raises. */
module Wrappers {

  datatype Option<+T> = None | Some(value: T)

  /** The Python exceptions (and HTTP errors) that the modelled code raises. */
  datatype Error =
    | ValueError(message: string)
    | TypeError(message: string)
    | NotImplementedError(message: string)
    | AttributeError(name: string)
    | HttpError(status: int, code: string)

  /** A value, or the exception raised while computing it. */
  datatype Result<+T> = Ok(value: T) | Err(error: Error)

  /** Completion of a procedure that returns nothing: normal return or an exception. */
  datatype Outcome = Pass | Fail(error: Error)
}
