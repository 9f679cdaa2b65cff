/** Small result types shared by the whole model. */
module Wrappers {

  /** A nullable Java reference or a JavaScript value that may be absent. */
  datatype Option<T> = None | Some(value: T)
  {
    function GetOr(default: T): T
    {
      if Some? then value else default
    }
  }

  /** The outcome of a service call: a value, or the exception it throws. */
  datatype Result<T, E> = Ok(value: T) | Err(error: E)
}
