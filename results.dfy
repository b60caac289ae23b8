/** Option, Result and the error kinds that the storage layer and the metrics raise. */
module Results {

  datatype Option<+T> = None | Some(value: T)

  /** What a Python call returns or raises. */
  datatype Result<+T> = Ok(value: T) | Err(error: Error)

  /** A call that returns nothing on success. */
  datatype Outcome = Done | Fail(error: Error)

  /** The exceptions the modelled code can raise. */
  datatype Error =
    | TypeError(message: string)   // `raise TypeError(...)` in database.py, with its message text
    | KeyError(key: string)        // indexing a frame by a column it does not have
    | OperationalError             // sqlite3's OperationalError: SQLite rejects the statement or the
                                   // table is missing (pandas' read wraps it in its DatabaseError)
    | NoneOperand                  // arithmetic on `None` (the interpreter's own TypeError)
    | ZeroDivision                 // float division by zero
}
