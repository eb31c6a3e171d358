/** Shared vocabulary: optional values, results with an error payload,
    bytes and the uploaded/selected file handle. */
module Base {

  /** A value that may be absent (JavaScript `null`, Python `None`). */
  datatype Option<+T> = None | Some(value: T)

  /** The outcome of an operation that may raise: a value or an error message. */
  datatype Result<+T, +E> = Success(value: T) | Failure(error: E)

  type byte = bv8

  /** An HTTP error response (FastAPI's `HTTPException`): status code and
      detail message. */
  datatype HttpError = HttpError(status: nat, detail: string)

  /** A file as the browser's file picker or the HTTP upload hands it over:
      its name and its bytes. Its size is the number of bytes. */
  datatype File = File(name: string, content: seq<byte>) {
    function Size(): nat { |content| }
  }
}
