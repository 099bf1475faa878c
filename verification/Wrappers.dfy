/** The conventional optional value, standing for Python's `None` or a value. */
module Wrappers {
  datatype Option<+T> = None | Some(value: T)

  datatype Result<+T, +E> = Ok(value: T) | Err(error: E)

  /** The value, if there is one, as a list of one. */
  function Listed<T>(o: Option<T>): seq<T> {
    if o.Some? then [o.value] else []
  }
}
