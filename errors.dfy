/**
  * Error carriers of the emulator (exceptions/exc.h).
  *
  * The C++ code signals failures with exceptions that carry a message and a
  * line; a freshly raised exception has line -1 until the build pass tags it.
  * Here an error is a value: its kind and its line. Messages are not modelled.
  */
module Errors {

  /** The kinds of failure the emulator distinguishes. */
  datatype ErrorKind =
    | InvalidArgument   // bad operand, unknown register or label, unresolved label
    | Unique            // a second BEGIN or END
    | Runtime           // top of an empty stack, RET with no CALL, division by zero

  /** An error and the line it is reported for (-1 when not yet known). */
  datatype Error = Error(kind: ErrorKind, line: int)

  /** The line an exception carries when it is raised without one. */
  const NoLine: int := -1

  /** A raised exception, before any line is attached. */
  function Raise(kind: ErrorKind): (e: Error)
    ensures e.kind == kind && e.line == NoLine
  {
    Error(kind, NoLine)
  }

  /** Either a value or the error that replaced it. */
  datatype Result<+T> = Ok(value: T) | Fail(error: Error) {
    predicate IsFailure() { Fail? }

    function PropagateFailure<U>(): Result<U>
      requires Fail?
    {
      Fail(error)
    }

    function Extract(): T
      requires Ok?
    {
      value
    }
  }
}
