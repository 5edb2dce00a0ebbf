/** What an Express handler does with a request: send a response, or pass an error on
    with `next(err)` to the error-handling middleware. */
module Http {
  import opened Js

  /** `res.status(statusCode).json(body)` */
  datatype Response = Response(statusCode: JsValue, body: JsValue)

  datatype HandlerResult = Sent(response: Response) | Next(error: ErrObj)
}
