/** Error values and the result type shared by the generator and the accessor. */
module Errors {

  /** Why a filesystem operation failed. */
  datatype FsReason = NotExist | Permission | NotDirectory | IsDirectory | NotRegular

  /** The errors the core can return: the generator's sentinel, the accessor's
      "not found" sentinel, filesystem errors, gzip reader errors and whatever the
      template collaborator reports. */
  datatype Error =
    | ErrNoPaths
    | ErrNotExist
    | PathError(op: string, path: string, reason: FsReason)
    | EOF
    | UnexpectedEOF
    | ErrHeader
    | TemplateError(message: string)

  /** A value that may be missing. */
  datatype Option<+T> = None | Some(value: T)

  /** Go's `(value, error)` pair: either a value or an error, never both. */
  datatype Result<+T> = Ok(value: T) | Err(error: Error) {
    predicate IsFailure() {
      Err?
    }

    function PropagateFailure<U>(): Result<U>
      requires Err?
    {
      Err(error)
    }

    function Extract(): T
      requires Ok?
    {
      value
    }
  }
}
