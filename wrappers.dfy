/** Option and Result, the two failure-carrying datatypes the model uses in
    place of Python's None returns and raised exceptions. */
module Wrappers {

  datatype Option<+T> = None | Some(value: T)

  /** Ok carries a value; Err carries the reason the Python code would raise. */
  datatype Result<+T, +E> = Ok(value: T) | Err(error: E)
}
