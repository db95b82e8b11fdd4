/** Option and Result as used throughout the model.  A Java `null` becomes
  * `None`; a thrown exception becomes `Err` carrying a `Failure`. */
module Wrappers {

  datatype Option<T> = None | Some(value: T) {
    function GetOr(default: T): T {
      if Some? then value else default
    }
  }

  /** The exception kinds the library throws, by their role. */
  datatype Failure =
    | IllegalState(msg: string)      // ItarazzoIllegalStateException
    | IllegalArgument(msg: string)   // (Itarazzo)IllegalArgumentException
    | Unsupported(msg: string)       // ItarazzoUnsupportedException
    | Interrupt(msg: string)         // ItarazzoInterruptException
    | NullReference(what: string)    // a NullPointerException on a null field
    | IndexOutOfBounds(what: string) // List.get / String.substring out of range
    | Foreign(what: string)          // an exception thrown by a library call
    | OutOfFuel                      // the model's bound on unbounded iteration

  datatype Result<T> = Ok(value: T) | Err(error: Failure) {
    predicate IsFailure() {
      Err?
    }
    function PropagateFailure<U>(): Result<U>
      requires Err?
    {
      Err(error)
    }
    function Extract(): T
      requires Ok?
    {
      value
    }
  }
}
