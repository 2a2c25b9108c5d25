/** Option and Result, the failure-carrying datatypes the model uses for
    nullable columns, missing map keys and rejected requests. */
module Wrappers {

  datatype Option<+T> = None | Some(value: T)

  datatype Result<+R, +E> = Ok(value: R) | Err(error: E)
}
