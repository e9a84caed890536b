/** Result types shared by every route handler and page of the storefront. */
module Common {

  /** A value that may be absent (a JSON field left out of a request body). */
  datatype Option<+T> = None | Some(value: T)

  /** The error replies of the REST API, one constructor per status code. */
  datatype Error =
    | BadRequest(message: string)    // 400
    | Unauthorized(message: string)  // 401
    | NotFound(message: string)      // 404

  datatype Result<+T> = Ok(value: T) | Err(error: Error)

  /** What a route handler answers, together with the store after the request. */
  datatype Reply<+T, +S> = Reply(result: Result<T>, state: S)
}
