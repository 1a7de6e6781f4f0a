/** Failure-carrying values shared by every module of the model. */
module Results {

  /** A JavaScript `Error` object, reduced to its message. Errors thrown by
      the external parsing library are opaque values of this type. */
  datatype Error = Error(message: string)

  /** `undefined` or a value. */
  datatype Option<+T> = None | Some(value: T)

  /** A settled promise: resolved with a value or rejected with an error. */
  datatype Result<+T, +E> = Success(value: T) | Failure(error: E)
}
