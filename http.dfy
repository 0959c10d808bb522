/** What a route handler returns: a status code and a JSON payload. */
module Http {
  import opened Json

  /** The incoming request: a body that parsed as JSON, or one that did
      not (then `request.json()` throws). */
  datatype Request = Parsed(body: Value) | Malformed

  /** The body of a reply: the data, an `{ error: message }` object, or
      the framework's own response to an exception the handler did not
      catch. */
  datatype Payload<T> = Data(value: T) | Error(message: string) | Unhandled

  datatype Reply<T> = Reply(status: int, payload: Payload<T>)

  const OK := 200
  const CREATED := 201
  const BAD_REQUEST := 400
  const SERVER_ERROR := 500
}
