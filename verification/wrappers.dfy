/** Failure-compatible wrappers and the JavaScript number values the scripts produce. */
module Wrappers {

  /** The conventional Some/None datatype; `None` stands for `null` or `undefined`. */
  datatype Option<+T> = None | Some(value: T) {

    /** Returns the value in Some, or `default` for None (JavaScript `x || default` on an object). */
    function GetOr(default: T): T
    {
      match this
      case Some(v) => v
      case None => default
    }
  }

  /** A result that either carries a value or a diagnostic message. */
  datatype Result<+R> = Success(value: R) | Failure(error: string)

  /** A JavaScript number as returned by `parseFloat`: NaN, or a finite value. */
  datatype Number = NaN | Num(v: real) {

    /** JavaScript truthiness of a number: NaN and 0 are falsy. */
    predicate Truthy()
    {
      Num? && v != 0.0
    }
  }
}
