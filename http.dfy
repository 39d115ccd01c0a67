/** HTTP status codes used by the product routes, and the media-type guard
    that the create and update handlers run first. */
module Http {
  import opened Wrappers

  const StatusOk := 200
  const StatusCreated := 201
  const StatusNoContent := 204
  const StatusBadRequest := 400
  const StatusNotFound := 404
  const StatusUnsupportedMediaType := 415

  /** The only media type the create and update handlers accept. */
  const JsonMediaType := "application/json"

  /** What the guard decides: let the handler go on, or abort the request
      with a status code. */
  datatype Outcome = Pass | Abort(status: int)

  /** `check_content_type`: `header` is the value of the request's
      Content-Type header, or None when the request has none. The request
      passes only when the header is there and its value is exactly the
      expected media type (no parameters, no case folding); every other
      request is aborted with 415 Unsupported Media Type. */
  function CheckContentType(header: Option<string>, expected: string): (r: Outcome)
    ensures r == Pass <==> header == Some(expected)
    ensures r != Pass ==> r == Abort(StatusUnsupportedMediaType)
  {
    if header.None? then
      Abort(StatusUnsupportedMediaType)
    else if header.value == expected then
      Pass
    else
      Abort(StatusUnsupportedMediaType)
  }

  /** A Content-Type that names JSON but adds a parameter (a charset, say)
      is still refused: the comparison is on the whole header value. */
  lemma ParametersAreRefused(params: string)
    requires params != ""
    ensures CheckContentType(Some(JsonMediaType + params), JsonMediaType) == Abort(StatusUnsupportedMediaType)
  {
  }
}
