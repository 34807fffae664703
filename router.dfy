/** `Router.ts`: route patterns with `:name` parameters, the matching of a
    pathname against them, the extraction of parameters, and the router
    step that dispatches a request to the first matching route. */
module Routing {
  import opened Wrappers
  import opened JsText
  import opened Http

  /** A compiled pattern: literal text, or a parameter standing for one
      non-empty run of characters other than '/'. */
  datatype Piece = Lit(text: string) | Param(name: string)
  type Pattern = seq<Piece>

  datatype Route = Route(pattern: Pattern, params: seq<string>, verb: string, handler: Handler)
  {
    /** The recorded names are those of the pattern's parameters, in order. */
    predicate Valid() { params == ParamNames(pattern) }
  }

  /** Length of the longest prefix made of word characters (`\w`). */
  function WordRun(s: string): (n: nat)
    ensures n <= |s|
    ensures forall i | 0 <= i < n :: IsWordChar(s[i])
    ensures n < |s| ==> !IsWordChar(s[n])
  {
    if s == [] || !IsWordChar(s[0]) then 0 else 1 + WordRun(s[1..])
  }

  /** Length of the longest prefix without '/'. */
  function SegmentRun(s: string): (n: nat)
    ensures n <= |s|
    ensures forall i | 0 <= i < n :: s[i] != '/'
    ensures n < |s| ==> s[n] == '/'
  {
    if s == [] || s[0] == '/' then 0 else 1 + SegmentRun(s[1..])
  }

  function PrependChar(c: char, p: Pattern): Pattern
  {
    if p != [] && p[0].Lit? then [Lit([c] + p[0].text)] + p[1..] else [Lit([c])] + p
  }

  /** `path.replace(/:(\w+)/g, ...)`: scanning left to right, a ':' followed
      by word characters becomes a parameter named by the longest such run;
      every other character is literal. */
  function Compile(path: string): (p: Pattern)
    ensures ':' !in path ==> p == if path == [] then [] else [Lit(path)]
    decreases |path|
  {
    if path == [] then []
    else if path[0] == ':' && |path| > 1 && IsWordChar(path[1]) then
      var n := WordRun(path[1..]);
      [Param(path[1..1 + n])] + Compile(path[1 + n..])
    else
      var rest := Compile(path[1..]);
      assert path == [path[0]] + path[1..];
      PrependLiteral(path[0], path[1..]);
      PrependChar(path[0], rest)
  }

  /** A character in front of a literal-only pattern joins its text. */
  lemma PrependLiteral(c: char, t: string)
    ensures PrependChar(c, if t == [] then [] else [Lit(t)]) == [Lit([c] + t)]
  {
    if t == [] {
      assert [c] + t == [c];
    } else {
      assert [Lit(t)][1..] == [];
    }
  }

  /** The path a pattern was written as. */
  function Render(p: Pattern): string
  {
    if p == [] then []
    else match p[0]
      case Lit(t) => t + Render(p[1..])
      case Param(n) => ":" + n + Render(p[1..])
  }

  function ParamNames(p: Pattern): (names: seq<string>)
    ensures |names| == ParamCount(p)
  {
    if p == [] then []
    else if p[0].Param? then [p[0].name] + ParamNames(p[1..])
    else ParamNames(p[1..])
  }

  function ParamCount(p: Pattern): nat
  {
    if p == [] then 0 else (if p[0].Param? then 1 else 0) + ParamCount(p[1..])
  }

  /** A parameter name as `:(\w+)` captures it: non-empty, word characters
      only, and not followed by a word character. */
  predicate MaximalNames(p: Pattern)
  {
    forall i | 0 <= i < |p| && p[i].Param? ::
      p[i].name != [] && (forall j | 0 <= j < |p[i].name| :: IsWordChar(p[i].name[j])) &&
      (i + 1 < |p| && p[i + 1].Lit? ==> p[i + 1].text != [] && !IsWordChar(p[i + 1].text[0]))
  }

  /** Compilation loses nothing: rendering the pattern gives back the
      path. */
  lemma {:induction false} CompileRoundTrip(path: string)
    ensures Render(Compile(path)) == path
    decreases |path|
  {
    if path == [] {
    } else if path[0] == ':' && |path| > 1 && IsWordChar(path[1]) {
      var n := WordRun(path[1..]);
      var tail := path[1 + n..];
      CompileRoundTrip(tail);
      RenderParam(path[1..1 + n], Compile(tail));
      assert path == [':'] + path[1..1 + n] + tail;
    } else {
      CompileRoundTrip(path[1..]);
      RenderPrepend(path[0], Compile(path[1..]));
      assert path == [path[0]] + path[1..];
    }
  }

  lemma RenderParam(name: string, rest: Pattern)
    ensures Render([Param(name)] + rest) == ":" + name + Render(rest)
  {
    assert ([Param(name)] + rest)[1..] == rest;
  }

  /** Every parameter of a compiled pattern is a maximal run of word
      characters, as `:(\w+)` captures it. */
  lemma {:induction false} CompileNamesAreMaximal(path: string)
    ensures MaximalNames(Compile(path))
    decreases |path|
  {
    if path == [] {
    } else if path[0] == ':' && |path| > 1 && IsWordChar(path[1]) {
      var n := WordRun(path[1..]);
      var name := path[1..1 + n];
      var rest := Compile(path[1 + n..]);
      CompileNamesAreMaximal(path[1 + n..]);
      LeadingLiteral(path[1 + n..]);
      assert n >= 1 && forall j | 0 <= j < n :: name[j] == path[1..][j];
      if rest != [] && rest[0].Lit? {
        assert path[1 + n..][0] == path[1..][n];
      }
      ParamKeepsMaximal(name, rest);
    } else {
      CompileNamesAreMaximal(path[1..]);
      LeadingLiteral(path[1..]);
      PrependKeepsMaximal(path[0], Compile(path[1..]));
    }
  }

  lemma ParamKeepsMaximal(name: string, rest: Pattern)
    requires name != [] && forall j | 0 <= j < |name| :: IsWordChar(name[j])
    requires rest != [] && rest[0].Lit? ==> rest[0].text != [] && !IsWordChar(rest[0].text[0])
    requires MaximalNames(rest)
    ensures MaximalNames([Param(name)] + rest)
  {
    var whole := [Param(name)] + rest;
    assert forall i | 1 <= i < |whole| :: whole[i] == rest[i - 1];
  }

  /** A compiled pattern that starts with literal text starts with the
      path's first character. */
  lemma {:induction false} LeadingLiteral(path: string)
    ensures Compile(path) != [] && Compile(path)[0].Lit? ==>
      path != [] && Compile(path)[0].text != [] && Compile(path)[0].text[0] == path[0]
    decreases |path|
  {
  }

  lemma RenderPrepend(c: char, p: Pattern)
    ensures Render(PrependChar(c, p)) == [c] + Render(p)
  {
    if p != [] && p[0].Lit? {
      assert Render(PrependChar(c, p)) == [c] + p[0].text + Render(p[1..]);
    } else {
      assert Render(PrependChar(c, p)) == [c] + Render(p);
    }
  }

  lemma PrependKeepsMaximal(c: char, p: Pattern)
    requires MaximalNames(p)
    ensures MaximalNames(PrependChar(c, p))
  {
    var q := PrependChar(c, p);
    if p != [] && p[0].Lit? {
      forall i | 1 <= i < |q| ensures q[i] == p[i] { }
    } else {
      forall i | 1 <= i < |q| ensures q[i] == p[i - 1] { }
    }
  }

  /** The route `addRoute(path, method, handler)` records. */
  function CompileRoute(path: string, verb: string, handler: Handler): (r: Route)
    ensures r.Valid()
    ensures Render(r.pattern) == path
  {
    CompileRoundTrip(path);
    Route(Compile(path), ParamNames(Compile(path)), verb, handler)
  }

  // ---------------------------------------------------------------------
  // Matching

  /** A capture of `([^/]+)`. */
  predicate IsSegment(c: string)
  {
    c != [] && forall i | 0 <= i < |c| :: c[i] != '/'
  }

  /** The text a pattern denotes once each parameter is given its capture. */
  function Fill(p: Pattern, caps: seq<string>): (s: string)
    requires |caps| == ParamCount(p)
    ensures ParamCount(p) == 0 ==> s == Render(p)
  {
    if p == [] then []
    else match p[0]
      case Lit(t) => t + Fill(p[1..], caps)
      case Param(_) => caps[0] + Fill(p[1..], caps[1..])
  }

  /** `caps` is one way to read `s` as the pattern `p`. */
  predicate Fits(p: Pattern, s: string, caps: seq<string>)
    ensures ParamCount(p) == 0 ==> (Fits(p, s, caps) <==> caps == [] && s == Render(p))
  {
    |caps| == ParamCount(p) && (forall i | 0 <= i < |caps| :: IsSegment(caps[i])) && Fill(p, caps) == s
  }

  /** `new RegExp("^" + compiled + "$").exec(s)`: literal pieces must match
      verbatim and each parameter captures a run of non-'/' characters,
      tried longest first as the greedy `([^/]+)` backtracks. The result is
      the captured groups. */
  function Match(p: Pattern, s: string): (r: Option<seq<string>>)
    ensures r.Some? ==> Fits(p, s, r.value)
    decreases |p|, 1, 0
  {
    if p == [] then (if s == [] then Some([]) else None)
    else match p[0]
      case Lit(t) =>
        if t <= s then
          var m := Match(p[1..], s[|t|..]);
          assert m.Some? ==> s == t + s[|t|..];
          m
        else None
      case Param(_) => TryLengths(p, s, SegmentRun(s))
  }

  /** The backtracking of one parameter (`p[0]`): captures of length `k`,
      `k - 1`, ..., 1 are tried in turn against the rest of the pattern. */
  function TryLengths(p: Pattern, s: string, k: nat): (r: Option<seq<string>>)
    requires p != [] && p[0].Param?
    requires k <= SegmentRun(s)
    ensures r.Some? ==> Fits(p, s, r.value)
    decreases |p|, 0, k
  {
    if k == 0 then None
    else match Match(p[1..], s[k..])
      case Some(caps) =>
        assert s == s[..k] + s[k..];
        Some([s[..k]] + caps)
      case None => TryLengths(p, s, k - 1)
  }

  /** A pattern matches exactly the strings it can be filled to: the match
      succeeds whenever some choice of captures fits. */
  lemma {:induction false} MatchComplete(p: Pattern, s: string, caps: seq<string>)
    requires Fits(p, s, caps)
    ensures Match(p, s).Some?
    decreases |p|, 1, 0
  {
    if p != [] {
      match p[0]
      case Lit(t) =>
        assert s == t + Fill(p[1..], caps);
        assert s[|t|..] == Fill(p[1..], caps);
        MatchComplete(p[1..], s[|t|..], caps);
      case Param(_) =>
        var c := caps[0];
        assert s == c + Fill(p[1..], caps[1..]);
        assert |c| <= SegmentRun(s);
        assert s[|c|..] == Fill(p[1..], caps[1..]);
        TryLengthsComplete(p, s, SegmentRun(s), |c|, caps[1..]);
    }
  }

  lemma {:induction false} TryLengthsComplete(p: Pattern, s: string, k: nat, j: nat, tail: seq<string>)
    requires p != [] && p[0].Param?
    requires 1 <= j <= k <= SegmentRun(s)
    requires Fits(p[1..], s[j..], tail)
    ensures TryLengths(p, s, k).Some?
    decreases |p|, 0, k
  {
    if k == j {
      MatchComplete(p[1..], s[k..], tail);
    } else if Match(p[1..], s[k..]).None? {
      TryLengthsComplete(p, s, k - 1, j, tail);
    }
  }

  /** Both directions together: the compiled pattern accepts a pathname iff
      the literal pieces appear verbatim and each parameter stands for a
      non-empty slash-free part. */
  lemma MatchIffFits(p: Pattern, s: string)
    ensures Match(p, s).Some? <==> exists caps :: Fits(p, s, caps)
  {
    if exists caps :: Fits(p, s, caps) {
      var caps :| Fits(p, s, caps);
      MatchComplete(p, s, caps);
    }
  }

  // ---------------------------------------------------------------------
  // Parameters and query

  function Zip(names: seq<string>, values: seq<string>): (pairs: seq<(string, string)>)
    requires |names| == |values|
    ensures |pairs| == |names|
    ensures forall i | 0 <= i < |names| :: pairs[i] == (names[i], values[i])
  {
    seq(|names|, i requires 0 <= i < |names| => (names[i], values[i]))
  }

  /** `Object.fromEntries(pairs)`: each pair assigns its value to its key, in
      order, so the last pair with a key decides it. */
  function FromEntries(pairs: seq<(string, string)>): (m: map<string, string>)
    ensures forall k :: k in m <==> exists i :: 0 <= i < |pairs| && pairs[i].0 == k
  {
    if pairs == [] then map[]
    else
      var init := pairs[..|pairs| - 1];
      var m := FromEntries(init);
      assert forall i | 0 <= i < |init| :: init[i] == pairs[i];
      m[pairs[|pairs| - 1].0 := pairs[|pairs| - 1].1]
  }

  /** Last write wins: a key maps to the value of its last pair. */
  lemma {:induction false} FromEntriesLastWins(pairs: seq<(string, string)>, i: nat)
    requires i < |pairs|
    requires forall j | i < j < |pairs| :: pairs[j].0 != pairs[i].0
    ensures pairs[i].0 in FromEntries(pairs) && FromEntries(pairs)[pairs[i].0] == pairs[i].1
  {
    var init := pairs[..|pairs| - 1];
    if i < |pairs| - 1 {
      assert forall j | i < j < |init| :: init[j] == pairs[j];
      FromEntriesLastWins(init, i);
    }
  }

  /** `extractParams(route, pathname)`: the i-th recorded name is given the
      i-th captured group. */
  method ExtractParams(route: Route, pathname: string) returns (params: map<string, string>)
    requires route.Valid() && Match(route.pattern, pathname).Some?
    ensures |route.params| == |Match(route.pattern, pathname).value|
    ensures params == FromEntries(Zip(route.params, Match(route.pattern, pathname).value))
  {
    var groups := Match(route.pattern, pathname).value;
    params := map[];
    var index := 0;
    while index < |route.params|
      invariant 0 <= index <= |route.params|
      invariant params == FromEntries(Zip(route.params[..index], groups[..index]))
    {
      assert Zip(route.params[..index + 1], groups[..index + 1])[..index]
        == Zip(route.params[..index], groups[..index]);
      params := params[route.params[index] := groups[index]];
      index := index + 1;
    }
    assert route.params[..index] == route.params && groups[..index] == groups;
  }

  // ---------------------------------------------------------------------
  // Route selection and the router step

  predicate Handles(route: Route, req: Request)
  {
    Match(route.pattern, req.pathname).Some? && req.verb == route.verb
  }

  /** `routes.find(...)` from position `from`: the first route whose pattern
      matches the pathname and whose method is the request's. */
  function SelectRoute(routes: seq<Route>, req: Request, from: nat): (r: Option<nat>)
    requires from <= |routes|
    ensures r.Some? ==> from <= r.value < |routes| && Handles(routes[r.value], req)
    ensures r.Some? ==> forall j | from <= j < r.value :: !Handles(routes[j], req)
    ensures r.None? ==> forall j | from <= j < |routes| :: !Handles(routes[j], req)
    decreases |routes| - from
  {
    if from == |routes| then None
    else if Handles(routes[from], req) then Some(from)
    else SelectRoute(routes, req, from + 1)
  }

  /** The request a matched route's handler sees: `params` from the
      captures, `query` from the query pairs. */
  function Routed(route: Route, req: Request): (r: Request)
    requires route.Valid() && Match(route.pattern, req.pathname).Some?
    ensures r.verb == req.verb && r.pathname == req.pathname && r.search == req.search
    ensures |route.params| == |Match(route.pattern, req.pathname).value|
    ensures r.params == Some(FromEntries(Zip(route.params, Match(route.pattern, req.pathname).value)))
    ensures r.query == Some(FromEntries(req.search))
  {
    var caps := Match(route.pattern, req.pathname).value;
    req.(params := Some(FromEntries(Zip(route.params, caps))), query := Some(FromEntries(req.search)))
  }

  /** The step `createRouterMiddleware` returns, invoked on `req`: with no
      route it calls `next()`; otherwise it attaches params and query and
      calls the handler, turning a thrown error into `next(error)`. The
      result is the request as later steps see it and what the step did. */
  function Dispatch(routes: seq<Route>, req: Request): (r: (Request, StepOutcome))
    requires forall i | 0 <= i < |routes| :: routes[i].Valid()
    ensures SelectRoute(routes, req, 0).None? ==> r == (req, Next(None))
    ensures SelectRoute(routes, req, 0).Some? ==>
      var route := routes[SelectRoute(routes, req, 0).value];
      r.0 == Routed(route, req) &&
      r.1 == (match route.handler(r.0)
              case Throw(e) => Next(Some(e))
              case o => o)
  {
    match SelectRoute(routes, req, 0)
    case None => (req, Next(None))
    case Some(k) =>
      var routed := Routed(routes[k], req);
      match routes[k].handler(routed)
      case Throw(e) => (routed, Next(Some(e)))
      case o => (routed, o)
  }

  /** A router step never throws: a handler's error reaches `next`. */
  lemma DispatchNeverThrows(routes: seq<Route>, req: Request)
    requires forall i | 0 <= i < |routes| :: routes[i].Valid()
    ensures !Dispatch(routes, req).1.Throw?
  {
  }

  /** The routes registered with one router, shared by all its steps. */
  class Router {
    var routes: seq<Route>

    ghost predicate Valid()
      reads this
    {
      forall i | 0 <= i < |routes| :: routes[i].Valid()
    }

    constructor ()
      ensures routes == [] && Valid()
    {
      routes := [];
    }

    /** `addRoute(path, method, handler)`: appends one compiled route. */
    method AddRoute(path: string, verb: string, handler: Handler)
      requires Valid()
      modifies this
      ensures routes == old(routes) + [CompileRoute(path, verb, handler)]
      ensures Valid()
    {
      routes := routes + [CompileRoute(path, verb, handler)];
    }

    /** `createRouterMiddleware(path, method, handler)`: registers the route
        and returns the router step. */
    method CreateRouterMiddleware(path: string, verb: string, handler: Handler) returns (step: Step)
      requires Valid()
      modifies this
      ensures routes == old(routes) + [CompileRoute(path, verb, handler)]
      ensures Valid()
      ensures step == RouterStep
    {
      AddRoute(path, verb, handler);
      step := RouterStep;
    }
  }
}
