/** Outcomes of the modelled Python code: a value, or the built-in exception it raises. */
module Results {

  datatype Option<+T> = None | Some(value: T)

  /** The Python exceptions that the modelled functions raise on malformed input. */
  datatype Error =
    | IndexError         // a token index past the end of `line.split()`
    | ValueError         // `int(...)` or `float(...)` of a token that is not a number
    | KeyError           // a missing dictionary key
    | UnboundLocalError  // a local variable read before any assignment

  /** A value, or the exception raised instead; usable with `:-`. */
  datatype Result<+T> = Ok(value: T) | Err(error: Error) {

    predicate IsFailure() {
      Err?
    }

    function PropagateFailure<U>(): Result<U>
      requires Err?
    {
      Err(error)
    }

    function Extract(): T
      requires Ok?
    {
      value
    }
  }
}
