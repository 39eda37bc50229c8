/** Option and Result types shared by every module of the model. */
module Wrappers {
  datatype Option<T> = None | Some(value: T)

  /** An error path of the source: a negative return code, a thrown exception
      or a Python error raised while parsing. */
  datatype Result<T> = Ok(value: T) | Err(msg: string)
  {
    predicate IsOk() { Ok? }
  }
}
