/** Optional values, results and the Python exceptions the modelled code can raise. */
module Common {

  datatype Option<+T> = None | Some(value: T)

  /** The exceptions that escape the modelled operations. */
  datatype Error =
    | AttributeError(what: string)    // a method called on None, e.g. `None.replace`
    | TypeError(what: string)         // `str.replace` given None as its replacement
    | ValueError(message: string)     // raised explicitly by the code
    | OperationalError(what: string)  // SQLite refuses the statement
    | IntegrityError(what: string)    // SQLite NOT NULL constraint
    | RequestError                    // an exception from the HTTP client
    | AssertionError                  // a failed `assert`

  /** A value or the exception that was raised instead; usable with `:-`. */
  datatype Result<+T> = Ok(value: T) | Err(error: Error) {
    predicate IsFailure() {
      Err?
    }

    function PropagateFailure<U>(): Result<U>
      requires Err?
    {
      Err(error)
    }

    function Extract(): T
      requires Ok?
    {
      value
    }
  }
}
