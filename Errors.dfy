/** Exceptions raised by the pipeline library, and the Option/Result wrappers the
    rest of the model uses for nullable values and for operations that can throw. */
module Errors {

  /** The .NET exception types that the modelled code raises or propagates. */
  datatype Exception =
    | InvalidOperation          // InvalidOperationException
    | ArgumentNull              // ArgumentNullException
    | ArgumentOutOfRange        // ArgumentOutOfRangeException
    | NotImplemented            // NotImplementedException
    | Overflow                  // OverflowException (array of negative length)
    | DivideByZero              // DivideByZeroException
    | NullReference             // NullReferenceException
    | UserFault(code: int)      // anything a user-supplied transform throws
    | Aggregate(inner: Exception) // AggregateException thrown by Task.Wait

  /** A value that may be absent; `None` stands for a C# `null`. */
  datatype Option<+T> = None | Some(value: T)

  /** The result of a call that either returns a value or throws. */
  datatype Result<+R> = Success(value: R) | Failure(error: Exception)

  /** The result of a call that returns nothing or throws. */
  datatype Outcome = Pass | Fail(error: Exception)
}
