/** Optional values and results shared by every module of the model. */
module Options {

  /** A JavaScript value that may be `undefined` (None) or present (Some). */
  datatype Option<+T> = None | Some(value: T)

  /** The outcome of a schema operation: a value, or the reason it was refused. */
  datatype Result<+T, +E> = Success(value: T) | Failure(error: E)
}
