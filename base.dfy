/** Values shared by the backend endpoints and the client screens. */
module Base {

  /** A value that may be absent: a missing request parameter, a JSON field that is
      `undefined` or `null`, a SQL lookup with no row. */
  datatype Option<T> = None | Some(value: T) {
    function GetOr(default: T): T {
      match this
      case Some(v) => v
      case None => default
    }
  }

  /** The JSON envelope every endpoint answers with:
      `{"status": "error", "message": m}` or `{"status": "success", ...data}`. */
  datatype Reply<T> = Error(message: string) | Success(data: T)

  /** What a client `fetch` yields: it throws (no answer reached the screen), or
      the server's reply arrives. */
  datatype Response<T> = NetworkError | Answer(reply: Reply<T>)

  function Min(a: int, b: int): int {
    if a <= b then a else b
  }
}
