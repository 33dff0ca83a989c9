/** Shared result types: a Python call that either returns or raises, and the
    `(is_registered, reason)` pair that a classification returns. */
module Results {

  /** The outcome of a Python call: its value, or the text of the exception it raised. */
  datatype Result<T> = Success(value: T) | Failure(error: string)

  /** The `(bool, str)` tuple returned by `open_chat_for_number`. */
  datatype Verdict = Verdict(registered: bool, reason: string)
}
