/** Option and Result, the failure-carrying datatypes the rest of the model uses. */
module Wrappers {

  datatype Option<+T> = None | Some(value: T)

  /** `Err` stands for a `luaL_error`: the call does not return normally. */
  datatype Result<+R, +E> = Ok(value: R) | Err(error: E)
}
