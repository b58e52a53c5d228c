/** Option and Result wrappers, and the errors the query engine can raise. */
module Results {

  datatype Option<+T> = None | Some(value: T) {
    function GetOr(default: T): T {
      match this
      case Some(v) => v
      case None => default
    }
  }

  /** Every failure the modelled code can raise is a JavaScript TypeError; the constructor says which one. */
  datatype Error =
    | KeysOfNull          // Object.keys(null): a `null` query takes the object branch of the access-path choice
    | AdvanceOutOfRange   // IDBCursor.advance(count) with count outside [1, 2^32 - 1]
    | LengthOfNullish     // reading `.length` of an undefined or null autocomplete term
    | EntriesOfUndefined  // Object.entries(undefined): an undefined query opens a cursor on the whole store

  datatype Result<+T> = Success(value: T) | Failure(error: Error)
}
