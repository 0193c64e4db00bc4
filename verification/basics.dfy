/** Optional values and fallible results shared by the whole model. */
module Basics {

  /** A value that may be missing; `None` stands for JavaScript `null`. */
  datatype Option<+T> = None | Some(value: T) {

    /** The carried value, or `default` when there is none. */
    function GetOr(default: T): T {
      if Some? then value else default
    }
  }

  /** Either a value or the error message the page shows instead. */
  datatype Result<+T> = Ok(value: T) | Err(message: string)

  /** The value of a filter select that lets everything through. */
  const ShowAll: string := "all"

  /** Timestamps are milliseconds since the epoch. */
  type Timestamp = int
}
