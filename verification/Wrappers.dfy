/** Result and Option values shared by the other modules. */
module Wrappers {

  datatype Option<+T> = None | Some(value: T)

  /** `Err` stands for a raised exception; the reason names which one. */
  datatype Result<+T, +E> = Ok(value: T) | Err(error: E)
}
