/** Python's optional values (None or a value) and the builder's error results. */
module Wrappers {

  datatype Option<T> = None | Some(value: T) {
    /** The value, or the given default when None (Python's `if x is None: x = default`). */
    function GetOr(default: T): T
    {
      match this
      case Some(v) => v
      case None => default
    }
  }

  /** The exceptions the builder can raise. */
  datatype Failure =
    | NotFound        // ValueError("Start or end element not found") from create_arrow
    | NoneEntry       // TypeError: create_arrow subscripts a None that a layout appended to the element list
    | DivisionByZero  // ZeroDivisionError: `i % len(colors)` with no colours, or 2*pi/len(destinations) with none

  datatype Result<T> = Ok(value: T) | Err(error: Failure)
}
