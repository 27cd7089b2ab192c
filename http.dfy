/**
 * What the browser client sees of a request: either the response data, or
 * one of the three failure shapes of its HTTP library (a response with a
 * status, a request that got no response, or neither).
 */
module Http {
  import opened Wrappers

  const BadRequest := 400
  const Unauthorized := 401
  const UnprocessableContent := 422

  datatype Failure =
    | HttpStatus(status: int, detail: Option<string>)  // `err.response`, with `data.detail`
    | NoResponse                                       // `err.request` only
    | NotSent                                          // neither

  datatype Reply<T> = Ok(data: T) | Err(failure: Failure)
}
