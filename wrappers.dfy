/** Option and Result for the places where the Python code returns None or raises. */
module Wrappers {
  datatype Option<T> = None | Some(value: T)

  /** The Python exception a failing operation raises; only its kind and message are kept. */
  datatype Error =
    | ValueError(message: string)
    | IndexError
    | KeyError(key: string)
    | NotImplementedError(message: string)
    | AttributeError(name: string)
    | TypeError(message: string)
    | ImportError(message: string)

  datatype Result<T> = Ok(value: T) | Err(error: Error)
}
