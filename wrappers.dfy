/** Results of operations that can fail, in place of raised exceptions. */
module Wrappers {
  datatype Result<+T, +E> = Ok(value: T) | Err(error: E)

  datatype Outcome<+E> = Pass | Fail(error: E)
}
