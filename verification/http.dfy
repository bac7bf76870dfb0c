/** The few outcomes of a REST handler the model distinguishes: a body with
    status 200, 404 Not Found, 204 No Content, and a server-side failure
    (status 500) carrying the exception's message. */
module Http {
  datatype Response<+T> =
    | Ok(body: T)
    | NotFound
    | NoContent
    | ServerError(message: string)
}
