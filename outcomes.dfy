/** Result shapes shared by the model: Python's `None`-or-value and a call
    that either returns or raises. */
module Outcomes {

  /** A Python value that may be `None`. */
  datatype Option<+T> = None | Some(value: T) {
    function GetOr(default: T): T {
      match this
      case Some(v) => v
      case None => default
    }
  }

  /** The outcome of a Python call: it returns a value, or a `ValueError`
      escapes from it (from `strptime`, or from the GraphQL error check). */
  datatype Outcome<+T> = Returns(value: T) | RaisesValueError
}
