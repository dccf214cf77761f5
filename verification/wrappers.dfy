/** Optional values, the exceptions the C# code throws, and results that keep
    the state at the point where an exception was thrown (C# does not roll back
    mutations made before a throw). */
module Wrappers {

  /** A value or the C# `null`. */
  datatype Option<+T> = None | Some(value: T)

  /** The exception classes the modelled code throws. */
  datatype Fault =
    | ArgumentOutOfRange   // System.ArgumentOutOfRangeException
    | ArgumentNull         // System.ArgumentNullException
    | Argument             // System.ArgumentException
    | InvalidOperation     // System.InvalidOperationException
    | SpotNotEmpty         // a plain System.Exception("Spot not empty")
    | IndexOutOfRange      // array access outside the array
    | Overflow             // array creation with a negative length

  /** A pure computation that either returns a value or throws. */
  datatype Result<+T> = Ok(value: T) | Err(fault: Fault)

  /** A state transformer that either returns a value, or throws and leaves
      the state exactly as it stood at the throw. */
  datatype Outcome<+S, +T> = Returned(state: S, value: T) | Thrown(fault: Fault, state: S)
}
