/** Optional values and success/failure results shared by the model. */
module Options {

  /** An absent or present value (`undefined`/`null` versus a value). */
  datatype Option<T> = None | Some(value: T)

  /** The outcome of a step that either produces a value or throws. */
  datatype Result<T, E> = Success(value: T) | Failure(error: E)
}
