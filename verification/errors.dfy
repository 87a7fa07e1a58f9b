/** The two error kinds of the library and the result type its fallible operations return. */
module Errors {

  /** The I/O failure categories the model can produce while reading a token stream. */
  datatype IoErrorKind = UnexpectedEof | InvalidData

  /** `InvalidArgument` carries a fixed description; `IoError` a failure category of the stream. */
  datatype Error = InvalidArgument(message: string) | IoError(kind: IoErrorKind)

  datatype Result<+T> = Ok(value: T) | Err(error: Error) {

    predicate IsFailure() {
      Err?
    }

    function PropagateFailure<U>(): Result<U>
      requires Err?
    {
      Err(error)
    }

    function Extract(): T
      requires Ok?
    {
      value
    }
  }

  datatype Option<+T> = None | Some(value: T)
}
