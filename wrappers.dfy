/** Option and Result, the two failure-carrying wrappers the rest of the model uses. */
module Wrappers {

  /** A value that may be absent: Python's `None` versus a present value. */
  datatype Option<+T> = None | Some(value: T) {

    /** The value, or `default` when absent. */
    function GetOr(default: T): T
    {
      match this
      case Some(v) => v
      case None => default
    }
  }

  /** Either a computed value or the exception the Python code raises. */
  datatype Result<+R, +E> = Success(value: R) | Failure(error: E)

  /** Python truthiness of an optional string: `None` and `""` are both falsy. */
  predicate Falsy(s: Option<string>)
  {
    s.None? || s.value == ""
  }

  /** Python's `f"{x}"` for an optional string: `None` renders as the text "None". */
  function PyStr(s: Option<string>): string
  {
    match s
    case Some(v) => v
    case None => "None"
  }
}
