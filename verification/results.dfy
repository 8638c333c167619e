/** Failure-carrying return types, and the exceptions that can escape the
    ingestion core. Python signals every failure by raising; the model returns
    a `Result` whose `Failure` carries the exception that would be raised. */
module Results {

  datatype Option<+T> = None | Some(value: T)

  datatype Result<+T, +E> = Success(value: T) | Failure(error: E)

  /** The exceptions the fetch loop can propagate to its caller. */
  datatype Error =
    | ConnectionError                // the HTTP call itself failed
    | HttpError(status: int)         // `raise_for_status` on a 4xx or 5xx answer
    | JsonDecodeError                // `resp.json()` on a body that is not JSON
    | KeyError(key: string)          // a missing key in a response or record
    | ValueError(literal: string)    // `int(...)` on text that is not a decimal integer
}
