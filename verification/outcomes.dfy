/** Failure-carrying values shared by the whole model: an optional value, a
    value-or-exception result, and the .NET exception kinds the simulator
    throws or lets escape. */
module Outcomes {

  datatype Option<+T> = None | Some(value: T)

  /** The exceptions of the simulator and of the library calls it makes,
      identified by kind and, where the source names it, the parameter. */
  datatype Exception =
    | ArgumentNull(paramName: string)         // ArgumentNullException
    | Argument(paramName: string)             // ArgumentException
    | ArgumentOutOfRange(paramName: string)   // ArgumentOutOfRangeException
    | InvalidCast                             // InvalidCastException
    | InvalidOperation                        // InvalidOperationException
    | NullReference                           // NullReferenceException
    | Format                                  // FormatException
    | Overflow                                // OverflowException
    | JsonReader                              // Newtonsoft JsonReaderException
    | JsonSerialization                       // Newtonsoft JsonSerializationException
    | Transport                               // a failed SDK call (send, report, invoke)
    | General(message: string)                // a plain System.Exception
    | Aggregate(inner: seq<Exception>)        // AggregateException

  datatype Result<+T> = Success(value: T) | Failure(error: Exception) {
    predicate IsFailure() { Failure? }

    function PropagateFailure<U>(): Result<U>
      requires Failure?
    {
      Failure(error)
    }

    function Extract(): T
      requires Success?
    {
      value
    }
  }

  /** A check that either passes or throws. */
  datatype Check = Pass | Throw(error: Exception) {
    predicate IsFailure() { Throw? }

    function PropagateFailure<U>(): Result<U>
      requires Throw?
    {
      Failure(error)
    }
  }
}
