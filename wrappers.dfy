/** Outcome types shared by the report views. */
module Wrappers {

  /** A value that may be missing: a query parameter that was not sent, or
      the mean of a window without readings (pandas gives NaN there). */
  datatype Option<+T> = None | Some(value: T)

  /** The exceptions a report view can end with.
      - ParseError: the client error the views raise when a required query
        parameter is missing (HTTP 400).
      - ValueError: what date parsing raises for a malformed date; no view
        catches it, so it reaches the framework as a server error.
      - ZeroDivisionError: what `by_date` raises for a segment window that
        holds no reading; it is not caught either. */
  datatype Error = ParseError | ValueError | ZeroDivisionError

  /** The outcome of a view: a response body, or the exception it raised. */
  datatype Result<+T> = Ok(value: T) | Err(error: Error)
}
