/** The results the operator's Go code returns: a pointer that may be nil, and a value paired with an error. */
module Wrappers {

  datatype Option<+T> = None | Some(value: T)

  datatype Result<+T, +E> = Ok(value: T) | Err(error: E)
}
