/** What the application sees of an HTTP exchange made with `fetch` or `XMLHttpRequest`. */
module Http {
  import opened Wrappers

  /**
   * `response.ok`: the status belongs to the 2xx (Successful) class of section 15.3 of RFC 9110.
   */
  predicate IsSuccessful(status: int) {
    200 <= status <= 299
  }

  /**
   * The outcome of one request: either the call itself rejected (network failure, with the
   * error's message), or a response arrived with a status, a status text and a body that
   * `response.json()` either parsed into a `B` (`Some`) or failed to parse (`None`).
   */
  datatype Reply<B> =
    | NetworkError(message: string)
    | Response(status: int, statusText: string, body: Option<B>)
  {
    predicate Ok() {
      Response? && IsSuccessful(status)
    }
  }
}
