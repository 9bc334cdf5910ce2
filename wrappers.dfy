// Error-carrying results shared by every module of the model.
module Wrappers {
  datatype Option<T> = None | Some(value: T)

  /** A Go `(value, error)` pair: `Err` stands for a non-nil error, whose
      message is kept so that the distinct failure causes stay apart. */
  datatype Result<T> = Ok(value: T) | Err(error: string)
}
