/** The optional-value datatype used where the Python code returns "nothing"
    or catches an exception and degrades. */
module Wrappers {

  datatype Option<+T> = None | Some(value: T)

  datatype Result<+R, +E> = Ok(value: R) | Err(error: E)
}
