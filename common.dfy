/** Small value wrappers shared by the widget models. */
module Common {

  /** A value that may be absent, such as an attribute an element does not carry. */
  datatype Option<T> = None | Some(value: T)

  /** The outcome of a computation that may throw. */
  datatype Result<T, E> = Success(value: T) | Failure(error: E)
}
