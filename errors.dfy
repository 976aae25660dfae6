/** Optional values, results, and the exceptions the bot's handlers can raise. */
module Errors {

  /** A value that may be absent: a dict key that is not set, a row that does not exist. */
  datatype Option<+T> = None | Some(value: T) {
    /** `dict.get(key, default)`. */
    function GetOr(default: T): T {
      match this
      case Some(v) => v
      case None => default
    }
  }

  /** The exceptions that reach the top of a handler, by kind. */
  datatype Error =
    | IndexError          // a list index past the end (`split(...)[1]`, `topics[i]`)
    | ValueError          // unpacking the wrong number of pieces, `random.sample` on a short pool
    | KeyError(key: string)   // `user_data[key] += 1` on a key that is not set
    | ZeroDivisionError   // scoring a quiz of zero questions
    | NoSuchTable(table: string)    // a statement on a table that was never created
    | NoSuchColumn(column: string)  // a statement naming a column the table does not have
    | UniqueViolation(table: string) // an insert that repeats a primary key

  /** A computation that either yields a value or raises. */
  datatype Result<+T> = Ok(value: T) | Err(error: Error)
}
