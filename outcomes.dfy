/** Optional values and the Java exceptions the modelled compiler can raise. */
module Outcomes {

  /** Stands for a Java reference that may be `null`. */
  datatype Option<+T> = None | Some(value: T) {
    function GetOr(default: T): T {
      match this
      case Some(v) => v
      case None => default
    }
  }

  /** The kinds of exception the compiler's code throws (or lets the JVM throw). */
  datatype JavaException =
    | NullPointer          // dereferencing or unboxing `null`
    | IndexOutOfBounds     // `charAt`, `substring`, `List.get` out of range
    | ClassCast            // a `(ValueType)` / `(FunctionType)` cast of the wrong symbol kind
    | NumberFormat         // `Integer.parseInt` of a text that is not a Java int
    | Arithmetic           // integer division or remainder by zero
    | UnknownError         // `throw new UnknownError()` in the lexer and in `Token(char)`
    | Failed(message: string)  // `error(msg)` in the parser and the analyser, `IOException` in the generator

  /** Either a value or the exception that ended the computation. */
  datatype Result<+T> = Ok(value: T) | Throws(exception: JavaException) {
    predicate IsFailure() {
      Throws?
    }

    function PropagateFailure<U>(): Result<U>
      requires Throws?
    {
      Throws(exception)
    }

    function Extract(): T
      requires Ok?
    {
      value
    }
  }
}
