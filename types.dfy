/** Values, errors and result wrappers shared by the query-builder modules. */
module Types {

  datatype Option<+T> = None | Some(value: T)

  /** A JavaScript value bound to a positional SQL parameter (numbers are integers here). */
  datatype Value = Text(s: string) | Number(n: int) | Null

  /**
   * The errors the data-access layer raises: `BadRequestError` and `NotFoundError` are the
   * application's own; `StorageError` stands for whatever the database driver throws.
   */
  datatype ExpressError =
    | BadRequestError(message: string)
    | NotFoundError(message: string)
    | StorageError(message: string)

  /** An operation's outcome: its value, or the error it throws. */
  datatype Result<+T> = Success(value: T) | Failure(error: ExpressError)
}
