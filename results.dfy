/** Python-level outcomes of the modelled operations: a value, or the exception the code raises. */
module Results {

  datatype Option<T> = None | Some(value: T)

  /** The exception classes the modelled code can raise, with what identifies them. */
  datatype Error =
    | ValueError(message: string)
    | KeyError(key: string)
    | AttributeError(message: string)
    | NameError(name: string)

  datatype Result<T> = Success(value: T) | Failure(error: Error)
}
