/** JavaScript values the front-end passes around: `T | null`, thrown values
    and settled promises. */
module Js {

  /** `T | null` (and `T | undefined`). */
  datatype Option<+T> = None | Some(value: T)

  /** A value caught by `catch (e)`: an `Error` object with its message, or any
      other thrown value (a string, a DOM `ProgressEvent`, ...). */
  datatype Thrown = ErrorObject(message: string) | NonErrorValue

  /** How an awaited promise settled: it resolved with a value or rejected
      with a thrown value. */
  datatype Settled<+T> = Resolved(value: T) | Rejected(reason: Thrown)

  const UnknownErrorMessage := "An unknown error occurred."

  /** The message both components show for a caught value:
      `e instanceof Error ? e.message : "An unknown error occurred."`. */
  function CaughtMessage(e: Thrown): (m: string)
    ensures e.ErrorObject? ==> m == e.message
    ensures e.NonErrorValue? ==> m == UnknownErrorMessage
  {
    match e
    case ErrorObject(m) => m
    case NonErrorValue => UnknownErrorMessage
  }

  /** JavaScript truthiness of a `string | null`: present and not empty. */
  predicate Truthy(s: Option<string>)
  {
    s.Some? && s.value != ""
  }
}
