/** `MyExpress.ts`: the middleware list and the walk `handleRequest` makes
    over it through the `next` continuation, with its cursor and carried
    error, ending in a step that stops or in the 404/500 fallback. */
module Dispatch {
  import opened Wrappers
  import opened Http
  import opened Routing

  /** One stop of the walk: the step's index, the error and request it was
      reached with, and, if it ran, the request it left and what it did. */
  datatype Visit = Visit(index: nat, carried: Option<Error>, request: Request, result: Option<(Request, StepOutcome)>)
  {
    predicate Ran() { result.Some? }
    predicate Stops() { result.Some? && result.value.1.Stop? }

    /** The error the cursor carries on past this step. */
    function ErrorAfter(): Option<Error>
      requires !Stops()
    {
      if result.None? then carried else Passed(result.value.1)
    }

    function RequestAfter(): Request
    {
      if result.None? then request else result.value.0
    }
  }

  /** A whole walk: the steps reached, in order, and the final response. */
  datatype Run = Run(visits: seq<Visit>, response: Option<Response>)

  /** `fallbackHandler`: a carried error gives 500 with its message, none
      gives 404. */
  function Fallback(err: Option<Error>): (r: Response)
    ensures err.Some? ==> r.status == 500 && r.body == "Internal Server Error: " + err.value.message
    ensures err.None? ==> r.status == 404 && r.body == "Not Found"
    ensures r.contentType.None?
  {
    match err
    case Some(e) => Response(500, None, "Internal Server Error: " + e.message)
    case None => Response(404, None, "Not Found")
  }

  /** `executeMiddleware`'s choice: an error-handling step runs iff an error
      is carried, any other step iff none is. */
  predicate Runs(step: Step, err: Option<Error>)
    ensures Runs(step, err) ==> (step.ErrorHandling? <==> err.Some?)
    ensures !Runs(step, err) ==> (step.ErrorHandling? <==> err.None?)
  {
    if err.Some? then step.ErrorHandling? else !step.ErrorHandling?
  }

  /** What a router step does when invoked: the request later steps see,
      and the step's outcome. */
  type RouteStep = Request -> (Request, StepOutcome)

  /** The router step over a router's routes, as `createRouterMiddleware`
      builds it. */
  function RouterDispatch(routes: seq<Route>): (d: RouteStep)
    requires forall i | 0 <= i < |routes| :: routes[i].Valid()
    ensures forall req :: !d(req).1.Throw?
  {
    (req: Request) => Dispatch(routes, req)
  }

  /** A step that runs, invoked: the request it leaves and what it did. */
  function Execute(step: Step, dispatch: RouteStep, err: Option<Error>, req: Request): (r: (Request, StepOutcome))
    requires Runs(step, err)
    ensures !step.RouterStep? ==> r.0 == req
  {
    match step
    case ErrorHandling(handle) => (req, handle(err.value, req))
    case Normal(run) => (req, run(req))
    case RouterStep => dispatch(req)
  }

  /** The error `next` receives after a step that did not stop: the one it
      passed, or the one it threw. */
  function Passed(o: StepOutcome): (e: Option<Error>)
    requires !o.Stop?
    ensures o.Throw? ==> e == Some(o.thrown)
    ensures o.Next? ==> e == o.error
  {
    match o
    case Next(err) => err
    case Throw(thrown) => Some(thrown)
  }

  /** Only the last visit may stop, and each visit is reached with the error
      and request the previous one handed on. */
  predicate Chained(visits: seq<Visit>)
  {
    |visits| <= 1 ||
    (!visits[0].Stops() &&
     visits[1].carried == visits[0].ErrorAfter() &&
     visits[1].request == visits[0].RequestAfter() &&
     Chained(visits[1..]))
  }

  /** The pointwise reading of `Chained`. */
  lemma {:induction false} ChainedAt(visits: seq<Visit>, k: nat)
    requires Chained(visits) && k + 1 < |visits|
    ensures !visits[k].Stops()
    ensures visits[k + 1].carried == visits[k].ErrorAfter()
    ensures visits[k + 1].request == visits[k].RequestAfter()
  {
    if k > 0 {
      ChainedAt(visits[1..], k - 1);
    }
  }

  /** Each visit is of the step its position says, counting from `i`, and
      that step ran iff its kind agrees with the error it was reached with,
      and then did what `Execute` says. */
  predicate Fits(steps: seq<Step>, dispatch: RouteStep, i: nat, visits: seq<Visit>)
    decreases |visits|
  {
    visits == [] ||
    (i < |steps| && visits[0].index == i &&
     (visits[0].Ran() <==> Runs(steps[i], visits[0].carried)) &&
     (visits[0].Ran() ==> visits[0].result.value == Execute(steps[i], dispatch, visits[0].carried, visits[0].request)) &&
     Fits(steps, dispatch, i + 1, visits[1..]))
  }

  /** The pointwise reading of `Fits`. */
  lemma {:induction false} FitsAt(steps: seq<Step>, dispatch: RouteStep, i: nat, visits: seq<Visit>, k: nat)
    requires Fits(steps, dispatch, i, visits) && k < |visits|
    ensures i + k < |steps| && visits[k].index == i + k
    ensures visits[k].Ran() <==> Runs(steps[i + k], visits[k].carried)
    ensures visits[k].Ran() ==>
      visits[k].result.value == Execute(steps[i + k], dispatch, visits[k].carried, visits[k].request)
    decreases k
  {
    if k > 0 {
      FitsAt(steps, dispatch, i + 1, visits[1..], k - 1);
    }
  }

  /** `next(err)` with the cursor at `i`: past the end the fallback
      responds; otherwise the step at `i` is taken, the cursor moves on, and
      the step runs or is passed over with the error unchanged. */
  function Walk(steps: seq<Step>, dispatch: RouteStep, i: nat, err: Option<Error>, req: Request): (r: Run)
    requires i <= |steps|
    // the cursor only moves forward: each step is reached at most once, in order
    ensures |r.visits| <= |steps| - i
    ensures r.visits != [] ==> r.visits[0].carried == err && r.visits[0].request == req
    // a step runs iff its kind agrees with the carried error, and then does what it does
    ensures Fits(steps, dispatch, i, r.visits)
    decreases |steps| - i
  {
    if i == |steps| then Run([], Some(Fallback(err)))
    else if !Runs(steps[i], err) then
      var rest := Walk(steps, dispatch, i + 1, err, req);
      var visits := [Visit(i, err, req, None)] + rest.visits;
      assert visits[1..] == rest.visits;
      Run(visits, rest.response)
    else
      var result := Execute(steps[i], dispatch, err, req);
      if result.1.Stop? then Run([Visit(i, err, req, Some(result))], result.1.response)
      else
        var rest := Walk(steps, dispatch, i + 1, Passed(result.1), result.0);
        var visits := [Visit(i, err, req, Some(result))] + rest.visits;
        assert visits[1..] == rest.visits;
        Run(visits, rest.response)
  }

  /** A walk goes on step by step: only the last step reached may stop, and
      each step is reached with the error and request the previous one
      handed on. */
  lemma {:induction false} WalkIsChained(steps: seq<Step>, dispatch: RouteStep, i: nat, err: Option<Error>, req: Request)
    requires i <= |steps|
    ensures Chained(Walk(steps, dispatch, i, err, req).visits)
    decreases |steps| - i
  {
    if i < |steps| {
      var r := Walk(steps, dispatch, i, err, req);
      if !Runs(steps[i], err) {
        WalkIsChained(steps, dispatch, i + 1, err, req);
        var rest := Walk(steps, dispatch, i + 1, err, req);
        assert r.visits == [Visit(i, err, req, None)] + rest.visits;
        assert r.visits[1..] == rest.visits;
      } else {
        var result := Execute(steps[i], dispatch, err, req);
        if !result.1.Stop? {
          WalkIsChained(steps, dispatch, i + 1, Passed(result.1), result.0);
          var rest := Walk(steps, dispatch, i + 1, Passed(result.1), result.0);
          assert r.visits == [Visit(i, err, req, Some(result))] + rest.visits;
          assert r.visits[1..] == rest.visits;
        }
      }
    }
  }

  /** The last step reached, if any, stopped the walk. */
  predicate StoppedAtEnd(r: Run)
  {
    r.visits != [] && r.visits[|r.visits| - 1].Stops()
  }

  /** The response of a walk that stopped is the response of its last step. */
  predicate AnswersWithStop(r: Run)
  {
    StoppedAtEnd(r) ==> r.response == r.visits[|r.visits| - 1].result.value.1.response
  }

  /** A walk that did not stop reached `n` steps and answers with the
      fallback for the error carried off the end. */
  predicate AnswersWithFallback(r: Run, n: nat, err: Option<Error>)
  {
    !StoppedAtEnd(r) ==>
      |r.visits| == n &&
      r.response == Some(Fallback(if r.visits == [] then err else r.visits[|r.visits| - 1].ErrorAfter()))
  }

  /** Both end properties carry over from the walk after the first step to
      the whole walk. */
  lemma EndsCarryOver(r: Run, first: Visit, rest: Run, n: nat, err: Option<Error>, err': Option<Error>)
    requires r.visits == [first] + rest.visits && r.response == rest.response && !first.Stops()
    requires err' == first.ErrorAfter()
    requires AnswersWithStop(rest) && AnswersWithFallback(rest, n, err')
    ensures AnswersWithStop(r) && AnswersWithFallback(r, n + 1, err)
  {
    if rest.visits != [] {
      assert r.visits[|r.visits| - 1] == rest.visits[|rest.visits| - 1];
    }
  }

  /** A walk ends in one of two ways: at a step that stops, answering with
      its response, or past the last step, having reached every remaining
      step, answering with the fallback for the error carried off the end. */
  lemma {:induction false} WalkEnds(steps: seq<Step>, dispatch: RouteStep, i: nat, err: Option<Error>, req: Request)
    requires i <= |steps|
    ensures AnswersWithStop(Walk(steps, dispatch, i, err, req))
    ensures AnswersWithFallback(Walk(steps, dispatch, i, err, req), |steps| - i, err)
    decreases |steps| - i
  {
    if i < |steps| {
      var r := Walk(steps, dispatch, i, err, req);
      if !Runs(steps[i], err) {
        WalkEnds(steps, dispatch, i + 1, err, req);
        EndsCarryOver(r, Visit(i, err, req, None), Walk(steps, dispatch, i + 1, err, req), |steps| - i - 1, err, err);
      } else {
        var result := Execute(steps[i], dispatch, err, req);
        if !result.1.Stop? {
          var first := Visit(i, err, req, Some(result));
          WalkEnds(steps, dispatch, i + 1, Passed(result.1), result.0);
          EndsCarryOver(r, first, Walk(steps, dispatch, i + 1, Passed(result.1), result.0), |steps| - i - 1,
                        err, Passed(result.1));
        }
      }
    }
  }

  /** The first `n` visits are of the steps from `i` on, each passed over
      with error `e` and request `req`. */
  predicate PassedOver(visits: seq<Visit>, i: nat, e: Error, req: Request, n: nat)
  {
    n <= |visits| && forall k | 0 <= k < n :: visits[k] == Visit(i + k, Some(e), req, None)
  }

  /** An error carried into a run of steps that are not error handlers
      reaches the first error handler after them unchanged, with the
      request unchanged too, and none of those steps runs. */
  lemma {:induction false} ErrorReachesHandlerUnchanged(
    steps: seq<Step>, dispatch: RouteStep, i: nat, e: Error, req: Request, m: nat)
    requires i <= m < |steps| && steps[m].ErrorHandling?
    requires forall j | i <= j < m :: !steps[j].ErrorHandling?
    ensures var r := Walk(steps, dispatch, i, Some(e), req);
      PassedOver(r.visits, i, e, req, m - i) && m - i < |r.visits| &&
      r.visits[m - i].carried == Some(e) && r.visits[m - i].request == req && r.visits[m - i].Ran()
    decreases m - i
  {
    var r := Walk(steps, dispatch, i, Some(e), req);
    if i < m {
      ErrorReachesHandlerUnchanged(steps, dispatch, i + 1, e, req, m);
      var rest := Walk(steps, dispatch, i + 1, Some(e), req);
      assert r.visits == [Visit(i, Some(e), req, None)] + rest.visits;
      assert r.visits[m - i] == rest.visits[m - (i + 1)];
      forall k | 0 <= k < m - i ensures r.visits[k] == Visit(i + k, Some(e), req, None) {
        if k > 0 {
          assert r.visits[k] == rest.visits[k - 1];
        }
      }
    }
  }

  /** An error carried into a run of steps that are not error handlers,
      followed by an error handler that stops on it, ends the walk there:
      the handler sees the error and the original request, and its response
      is the walk's. */
  lemma {:induction false} ErrorStopsAtHandler(
    steps: seq<Step>, dispatch: RouteStep, i: nat, e: Error, req: Request, m: nat)
    requires i <= m < |steps| && steps[m].ErrorHandling?
    requires forall j | i <= j < m :: !steps[j].ErrorHandling?
    requires steps[m].handle(e, req).Stop?
    ensures Walk(steps, dispatch, i, Some(e), req).response == steps[m].handle(e, req).response
    decreases m - i
  {
    if i < m {
      ErrorStopsAtHandler(steps, dispatch, i + 1, e, req, m);
    }
  }

  /** Without an error, error handlers are passed over: from a cursor with
      no carried error, every error handler in a run of them up to `m` is
      reached and none of them runs. */
  lemma {:induction false} HandlersIdleWithoutError(
    steps: seq<Step>, dispatch: RouteStep, i: nat, req: Request, m: nat)
    requires i <= m < |steps| && steps[m].ErrorHandling?
    requires forall j | i <= j < m :: steps[j].ErrorHandling?
    ensures |Walk(steps, dispatch, i, None, req).visits| > m - i
    ensures forall k | 0 <= k <= m - i :: !Walk(steps, dispatch, i, None, req).visits[k].Ran()
    decreases m - i
  {
    if i < m {
      HandlersIdleWithoutError(steps, dispatch, i + 1, req, m);
    }
  }

  /** The application: its middleware list and the router its route steps
      consult. */
  class MyExpress {
    var middlewares: seq<Step>
    const router: Router

    ghost predicate Valid()
      reads this, router
    {
      router.Valid()
    }

    constructor ()
      ensures middlewares == [] && router.routes == [] && Valid()
    {
      middlewares := [];
      router := new Router();
    }

    /** `use(middleware)`: appends one step. */
    method Use(step: Step)
      modifies this
      ensures middlewares == old(middlewares) + [step]
    {
      middlewares := middlewares + [step];
    }

    /** `get(path, handler)`: registers a GET route and appends its step. */
    method Get(path: string, handler: Handler)
      requires Valid()
      modifies this, router
      ensures router.routes == old(router.routes) + [CompileRoute(path, "GET", handler)]
      ensures middlewares == old(middlewares) + [RouterStep]
      ensures Valid()
    {
      var step := router.CreateRouterMiddleware(path, "GET", handler);
      Use(step);
    }

    /** `post(path, handler)`: registers a POST route and appends its step. */
    method Post(path: string, handler: Handler)
      requires Valid()
      modifies this, router
      ensures router.routes == old(router.routes) + [CompileRoute(path, "POST", handler)]
      ensures middlewares == old(middlewares) + [RouterStep]
      ensures Valid()
    {
      var step := router.CreateRouterMiddleware(path, "POST", handler);
      Use(step);
    }

    /** `put(path, handler)`: registers a PUT route and appends its step. */
    method Put(path: string, handler: Handler)
      requires Valid()
      modifies this, router
      ensures router.routes == old(router.routes) + [CompileRoute(path, "PUT", handler)]
      ensures middlewares == old(middlewares) + [RouterStep]
      ensures Valid()
    {
      var step := router.CreateRouterMiddleware(path, "PUT", handler);
      Use(step);
    }

    /** `delete(path, handler)`: registers a DELETE route and appends its
        step. */
    method Delete(path: string, handler: Handler)
      requires Valid()
      modifies this, router
      ensures router.routes == old(router.routes) + [CompileRoute(path, "DELETE", handler)]
      ensures middlewares == old(middlewares) + [RouterStep]
      ensures Valid()
    {
      var step := router.CreateRouterMiddleware(path, "DELETE", handler);
      Use(step);
    }

    /** `handleRequest(req, res)`: the cursor starts at 0 with no error;
        `next(err)` takes the step under the cursor, moves the cursor on and
        runs or skips the step, until a step stops or the cursor is past
        the end and the fallback answers. Returns the response and how many
        steps were reached. */
    method HandleRequest(req: Request) returns (response: Option<Response>, reached: nat)
      requires Valid()
      ensures response == Walk(middlewares, RouterDispatch(router.routes), 0, None, req).response
      ensures reached == |Walk(middlewares, RouterDispatch(router.routes), 0, None, req).visits|
      ensures reached <= |middlewares|
      ensures middlewares == [] ==> response == Some(Response(404, None, "Not Found"))
    {
      var steps := middlewares;
      var dispatch := RouterDispatch(router.routes);
      ghost var whole := Walk(steps, dispatch, 0, None, req);
      var i := 0;
      var err: Option<Error> := None;
      var current := req;
      while true
        invariant i <= |steps|
        invariant Walk(steps, dispatch, i, err, current).response == whole.response
        invariant i + |Walk(steps, dispatch, i, err, current).visits| == |whole.visits|
        decreases |steps| - i
      {
        if i == |steps| {
          return Some(Fallback(err)), i;
        }
        var step := steps[i];
        i := i + 1;
        if Runs(step, err) {
          var result := Execute(step, dispatch, err, current);
          if result.1.Stop? {
            return result.1.response, i;
          }
          err := Passed(result.1);
          current := result.0;
        }
      }
    }
  }
}
