/** The values a request passes through the framework: the request as the
    router and the steps see it, the response a step writes, what a step does
    with the continuation, and the errors that travel along the chain. */
module Http {
  import opened Wrappers

  /** A thrown value: an `HttpError` carries its status; any other `Error`
      only a message. */
  datatype Error = HttpError(status: int, message: string) | PlainError(message: string)

  /** A request: method, pathname and the ordered query pairs of its URL,
      plus the `params` and `query` records a router step attaches. */
  datatype Request = Request(
    verb: string,
    pathname: string,
    search: seq<(string, string)>,
    params: Option<map<string, string>>,
    query: Option<map<string, string>>)

  /** The response a step writes: status, Content-Type header if set, body. */
  datatype Response = Response(status: int, contentType: Option<string>, body: string)

  /** What a step does once invoked: call `next` (with or without an error),
      throw, or end the walk having written a response or nothing. */
  datatype StepOutcome =
    | Next(error: Option<Error>)
    | Throw(thrown: Error)
    | Stop(response: Option<Response>)

  /** The handler a route registers. */
  type Handler = Request -> StepOutcome

  /** A middleware step: a normal step `(req, res, next)`, an
      error-handling step `(err, req, res, next)`, or the step a router
      creates for `get`/`post`/`put`/`delete`, which dispatches through the
      router's routes. */
  datatype Step =
    | Normal(run: Request -> StepOutcome)
    | ErrorHandling(handle: (Error, Request) -> StepOutcome)
    | RouterStep
}
