/** The optional value used throughout the model. For an input field that
    has a default, `None` is a field left out (`undefined`); for a metric
    value or a result field, `None` is `null` or `undefined` as the program
    returns it; `Some` is a value that is present. */
module Wrappers {

  datatype Option<+T> = None | Some(value: T) {

    /** The value, or `default` when there is none. */
    function GetOr(default: T): T {
      match this
      case Some(v) => v
      case None => default
    }
  }
}
