/** The optional value used wherever a JSON field, a file or a limit may be absent. */
module Wrappers {

  datatype Option<+T> = None | Some(value: T) {

    /** The value, or `default` when absent: the source's `x || default` for a present, non-zero `x`. */
    function GetOr(default: T): T
    {
      match this
      case Some(v) => v
      case None => default
    }
  }
}

/** Calendar days. */
module Dates {

  /**
   * A calendar day as a day number (days since 1970-01-01, UTC).
   * The source compares `YYYY-MM-DD` strings produced by `toISOString()` for equality,
   * which agrees with equality of day numbers, and orders dates by `new Date(date).getTime()`,
   * which is monotone in the day number.
   */
  type Day = int
}
