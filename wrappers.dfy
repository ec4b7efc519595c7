/** Option and Result, the two failure-carrying datatypes the model uses for Ruby's
    nil and for the exceptions the survey engine raises. */
module Wrappers {

  datatype Option<+T> = None | Some(value: T)

  datatype Result<+R, +E> = Ok(value: R) | Err(error: E)
}
