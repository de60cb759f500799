/** An HTTP response as the vendor clients see it: a status code and an already-decoded body. */
module Http {

  datatype Response<T> = Response(status: int, body: T)

  /** `requests.Response.raise_for_status()` raises exactly for client (4xx) and server (5xx) errors. */
  predicate RaisesForStatus(status: int)
  {
    400 <= status < 600
  }
}
