/** Small failure-carrying datatypes shared by the vending machine modules. */
module Wrappers {

  /** Python's `None` versus a present value. */
  datatype Option<+T> = None | Some(value: T)

  /** A value, or the exception the operation raises instead. */
  datatype Result<+R, +E> = Ok(value: R) | Err(error: E)
}
