/** Small failure-carrying datatypes shared by every module of the model. */
module Wrappers {

  /** A nullable JavaScript value: `None` stands for `null` / `undefined`. */
  datatype Option<+T> = None | Some(value: T) {

    /** The value, or the given default when absent (JavaScript's `x ?? d`). */
    function GetOr(default: T): T {
      match this
      case Some(v) => v
      case None => default
    }
  }

  /** The observable state of a file the program reads with `existsSync` followed by
      `readFileSync` and `JSON.parse`: it is absent, it exists but cannot be read or
      parsed, or it holds a parsed value. */
  datatype Stored<+T> = Missing | Malformed | Holds(content: T)

  /** How a JavaScript promise ended. `Resolved(None)` is `resolve()` with no value. */
  datatype Settlement<+T> = Resolved(value: T) | Rejected(message: string)
}
