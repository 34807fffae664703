/** `errorHandler.ts`: the error-handling step that turns a carried error
    into a JSON response. */
module ErrorResponses {
  import opened Wrappers
  import opened Http
  import opened Json
  import opened Routing
  import opened Dispatch

  /** `send(res, status, message)`: the status, a JSON Content-Type and the
      body `{"message": message}`. */
  function Send(status: int, message: string): (r: Response)
    ensures r.status == status && r.contentType == Some("application/json")
    ensures ReadMessageObject(r.body) == Some(message)
  {
    MessageObjectRoundTrip(message);
    Response(status, Some("application/json"), MessageObject(message))
  }

  /** `errorHandler(err, req, res, next)`: no error calls `next()`; an
      `HttpError` answers with its own status and message; any other error
      answers 500 without revealing its message. */
  function HandleError(err: Option<Error>): (o: StepOutcome)
    ensures err.None? ==> o == Next(None)
    ensures err.Some? ==> o.Stop? && o.response.Some?
    ensures err.Some? ==> o.response.value.contentType == Some("application/json")
    ensures err.Some? && err.value.HttpError? ==>
      o.response.value.status == err.value.status &&
      ReadMessageObject(o.response.value.body) == Some(err.value.message)
    ensures err.Some? && err.value.PlainError? ==>
      o.response.value.status == 500 &&
      ReadMessageObject(o.response.value.body) == Some("Internal Server Error")
  {
    match err
    case None => Next(None)
    case Some(HttpError(status, message)) => Stop(Some(Send(status, message)))
    case Some(PlainError(_)) => Stop(Some(Send(500, "Internal Server Error")))
  }

  /** The step `app.use(errorHandler)` appends. */
  function ErrorHandlerStep(): (s: Step)
    ensures s.ErrorHandling?
  {
    ErrorHandling((e: Error, req: Request) => HandleError(Some(e)))
  }

  /** Errors other than `HttpError` all get the same answer, whatever their
      message. */
  lemma PlainErrorsLookAlike(m1: string, m2: string)
    ensures HandleError(Some(PlainError(m1))) == HandleError(Some(PlainError(m2)))
  {
  }

  /** An error thrown or passed along before the error handler, with no
      other error handler in between, ends the walk there: the response is
      the error handler's answer to that same error. */
  lemma {:induction false} CarriedErrorIsAnswered(
    steps: seq<Step>, dispatch: RouteStep, i: nat, e: Error, req: Request, m: nat)
    requires i <= m < |steps| && steps[m].ErrorHandling?
    requires forall e0, r0 :: steps[m].handle(e0, r0) == HandleError(Some(e0))
    requires forall j | i <= j < m :: !steps[j].ErrorHandling?
    ensures Walk(steps, dispatch, i, Some(e), req).response == HandleError(Some(e)).response
  {
    ErrorStopsAtHandler(steps, dispatch, i, e, req, m);
  }
}
