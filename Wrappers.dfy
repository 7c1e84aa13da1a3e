/** Option and Result values used across the model; `Err` carries the text of the error the source throws. */
module Wrappers {
  datatype Option<T> = None | Some(value: T)

  datatype Result<T> = Ok(value: T) | Err(msg: string)
}
