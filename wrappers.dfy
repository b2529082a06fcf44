/** Small value wrappers shared by every module of the model. */
module Wrappers {

  /** A value that may be absent: a missing dictionary key or an unset session field. */
  datatype Option<+T> = None | Some(value: T) {

    /** Python's `d.get(key, default)` once the lookup has produced this option. */
    function GetOr(default: T): T
    {
      match this
      case Some(v) => v
      case None => default
    }
  }

  /** The outcome of `json.loads`, kept abstract: either a decoded value or a decoding error. */
  datatype JsonResult<+T> = Parsed(value: T) | Invalid

  /** A decoded JSON value as far as the agents look at it: an object, whose members they
      read, or any other value (an array, a string, a number, `true`, `false`, `null`). */
  datatype Decoded<+T> = JsonObject(members: T) | NotAnObject

  /** Whether a call returns a value or raises an exception. */
  datatype Outcome<+T> = Returns(value: T) | Raises
}
