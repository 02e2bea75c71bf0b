/** Option and Result: absent children of an expression node, and the error
    results that replace the undefined behaviour of the original program. */
module Wrappers {

  datatype Option<+T> = None | Some(value: T)

  datatype Result<+T, +E> = Ok(value: T) | Err(error: E)
}
