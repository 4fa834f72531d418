/** Error codes and the result shapes that stand for the factory's exceptions. */
module Outcomes {

  /** The error codes a load or a lookup can end with. `ReservedName` stands for the
      IllegalArgumentException thrown for a reserved factory name; the others are the
      codes carried by LangDetectException. */
  datatype ErrorCode =
    | NeedLoadProfileError
    | FormatError
    | FileLoadError
    | DuplicateLangError
    | ReservedName

  /** Outcome of an operation that returns nothing: it completed, or it threw. */
  datatype Outcome = Pass | Fail(error: ErrorCode)

  /** Outcome of an operation that returns a value. */
  datatype Result<T> = Success(value: T) | Failure(error: ErrorCode)

  /** A value that may be absent (a Java `null`). */
  datatype Option<T> = None | Some(value: T)
}
