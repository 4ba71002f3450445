/** Option and Result values shared by every module of the model. A Python
    `None` return is `None`; a raised exception is `Err` with a short reason. */
module Wrappers {

  datatype Option<+T> = None | Some(value: T)

  datatype Result<+T> = Ok(value: T) | Err(error: string)
}
