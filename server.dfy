/**
 * The bolt request dispatcher (server.go): route selection in registration
 * order, the path comparison with `{name}` and `{name@validator}` segments,
 * and the pipeline of hooks, middlewares, handler and error handler.
 *
 * Handlers, middlewares and hooks are abstract outcomes (see Types); what the
 * pipeline does with them is recorded as a trace of events. log.Fatal in the
 * comparison is the `Fatal` match outcome, which ends the trace.
 */
module BoltServer {
  import opened Wrappers
  import opened Types
  import opened GoStrings
  import opened BoltRouter
  import opened Context
  import opened BoltConfig
  import opened BoltApp

  // ---------------------------------------------------------------------------
  // Path comparison

  /** A route segment that binds a parameter: it starts with '{' and ends with '}'. */
  predicate IsParamPart(part: string) {
    HasPrefix(part, '{') && HasSuffix(part, '}')
  }

  /** The text between the braces. */
  function KeyOf(part: string): string
    requires IsParamPart(part)
  {
    part[1..|part| - 1]
  }

  /** A parameter segment naming a validator after '@'. */
  predicate Validated(part: string) {
    IsParamPart(part) && '@' in KeyOf(part)
  }

  /** The parameter name: the key up to its first '@', or the whole key. */
  function BoundName(part: string): string
    requires IsParamPart(part)
  {
    var key := KeyOf(part);
    var at := IndexOf(key, '@');
    if at < 0 then key else key[..at]
  }

  /** strings.SplitN(key, "@", 2)[1]: everything after the first '@' is one validator name. */
  function ValidatorName(part: string): string
    requires Validated(part)
  {
    var key := KeyOf(part);
    key[IndexOf(key, '@') + 1..]
  }

  /** The parameter names bound by routeParts[i..]. */
  function ParamKeys(routeParts: seq<string>, i: nat): set<string>
    decreases |routeParts| - i
  {
    if i >= |routeParts| then {}
    else (if IsParamPart(routeParts[i]) then {BoundName(routeParts[i])} else {}) + ParamKeys(routeParts, i + 1)
  }

  /** A segment that names a validator the router does not have. */
  predicate UnknownValidator(router: Router, part: string)
    reads router
  {
    Validated(part) && ValidatorName(part) !in router.validators
  }

  /** The value a parameter segment stores for a path part: the validator's output, or the part itself. */
  function BoundValue(router: Router, part: string, value: string): string
    reads router
    requires IsParamPart(part) && !UnknownValidator(router, part)
  {
    if Validated(part) then router.validators[ValidatorName(part)](value).value else value
  }

  /** What one segment of the comparison loop does: stop with an outcome, bind a parameter, or go on. */
  datatype Step = Stop(outcome: Match) | Bind(key: string, value: string) | Next

  /**
   * One iteration of server.comparePath's loop: a static segment must equal its
   * path part; a parameter binds its name to the path part, or for
   * `{name@v}` to validator v's output, where a validator error is no match
   * and an unregistered v terminates with getValidator's error.
   */
  function SegmentStep(router: Router, part: string, value: string): Step
    reads router
  {
    if IsParamPart(part) then
      if Validated(part) then
        match router.GetValidator(ValidatorName(part))
        case Fail(e) => Stop(Fatal(e.Message()))
        case Ok(v) =>
          var c := v(value);
          if c.err.Some? then Stop(NoMatch) else Bind(BoundName(part), c.value)
      else Bind(BoundName(part), value)
    else if part != value then Stop(NoMatch)
    else Next
  }

  /** The comparison loop of server.comparePath from segment i on, with `params` bound so far. */
  function CompareParts(router: Router, routeParts: seq<string>, pathParts: seq<string>, i: nat,
                        params: map<string, string>): Match
    reads router
    requires |routeParts| == |pathParts| && i <= |routeParts|
    decreases |routeParts| - i
  {
    if i == |routeParts| then Matched(params)
    else
      match SegmentStep(router, routeParts[i], pathParts[i])
      case Stop(outcome) => outcome
      case Bind(key, value) => CompareParts(router, routeParts, pathParts, i + 1, params[key := value])
      case Next => CompareParts(router, routeParts, pathParts, i + 1, params)
  }

  /** Every parameter segment from i on contributes its name. */
  lemma {:induction false} ParamKeysHold(routeParts: seq<string>, i: nat, j: nat)
    requires i <= j < |routeParts| && IsParamPart(routeParts[j])
    ensures BoundName(routeParts[j]) in ParamKeys(routeParts, i)
    decreases j - i
  {
    if i < j {
      ParamKeysHold(routeParts, i + 1, j);
    }
  }

  /**
   * What a match of CompareParts means: every static segment equals its path
   * part; the names bound are those bound before plus those of the parameter
   * segments; a name no later segment rebinds holds the value of its segment
   * (the validator's output for `{name@v}`); a Fatal outcome names a validator
   * that is not registered.
   */
  lemma {:induction false} CompareFacts(router: Router, routeParts: seq<string>, pathParts: seq<string>, i: nat,
                                        params: map<string, string>)
    requires |routeParts| == |pathParts| && i <= |routeParts|
    ensures var r := CompareParts(router, routeParts, pathParts, i, params);
            (r.Matched? ==> forall j :: i <= j < |routeParts| && !IsParamPart(routeParts[j]) ==> routeParts[j] == pathParts[j]) &&
            (r.Matched? ==> r.params.Keys == params.Keys + ParamKeys(routeParts, i)) &&
            (r.Matched? ==> forall k :: k in params && k !in ParamKeys(routeParts, i) ==> r.params[k] == params[k]) &&
            (r.Fatal? ==> exists j :: i <= j < |routeParts| && UnknownValidator(router, routeParts[j]))
    decreases |routeParts| - i
  {
    if i < |routeParts| {
      var part := routeParts[i];
      var st := SegmentStep(router, part, pathParts[i]);
      StepFacts(router, part, pathParts[i]);
      assert ParamKeys(routeParts, i) == (if IsParamPart(part) then {BoundName(part)} else {}) + ParamKeys(routeParts, i + 1);
      if st.Bind? {
        CompareFacts(router, routeParts, pathParts, i + 1, params[st.key := st.value]);
      } else if st.Next? {
        CompareFacts(router, routeParts, pathParts, i + 1, params);
      }
    }
  }

  /** What one segment step can do: a stop is never a match, and is fatal only for an unknown validator. */
  lemma StepFacts(router: Router, part: string, value: string)
    ensures var st := SegmentStep(router, part, value);
            (st.Stop? ==> !st.outcome.Matched? && (st.outcome.Fatal? ==> UnknownValidator(router, part))) &&
            (st.Bind? ==> IsParamPart(part) && st.key == BoundName(part)) &&
            (st.Next? ==> !IsParamPart(part) && part == value)
  {
  }

  /** On a match, a name no later segment rebinds holds the value its own segment gives. */
  lemma {:induction false} CompareValues(router: Router, routeParts: seq<string>, pathParts: seq<string>, i: nat,
                                         params: map<string, string>, j: nat)
    requires |routeParts| == |pathParts| && i <= j < |routeParts|
    requires CompareParts(router, routeParts, pathParts, i, params).Matched?
    requires IsParamPart(routeParts[j]) && BoundName(routeParts[j]) !in ParamKeys(routeParts, j + 1)
    ensures !UnknownValidator(router, routeParts[j])
    ensures var r := CompareParts(router, routeParts, pathParts, i, params);
            BoundName(routeParts[j]) in r.params &&
            r.params[BoundName(routeParts[j])] == BoundValue(router, routeParts[j], pathParts[j])
    decreases j - i
  {
    var part := routeParts[i];
    var next := if !IsParamPart(part) then params
                else if Validated(part) then params[BoundName(part) := router.validators[ValidatorName(part)](pathParts[i]).value]
                else params[BoundName(part) := pathParts[i]];
    assert CompareParts(router, routeParts, pathParts, i, params) == CompareParts(router, routeParts, pathParts, i + 1, next);
    if i < j {
      CompareValues(router, routeParts, pathParts, i + 1, next, j);
    } else {
      CompareFacts(router, routeParts, pathParts, i + 1, next);
    }
  }

  /**
   * server.comparePath: both sides trimmed of '/'; equal strings match with no
   * parameters, even when the route holds `{...}` segments; otherwise the
   * segment counts must agree and the segments are compared in order.
   */
  function BoltCompare(router: Router, path: string, rawPath: string): Match
    reads router
  {
    var p := Trim(path, '/');
    var routePath := Trim(rawPath, '/');
    if p == routePath then Matched(map[])
    else
      var routeParts := Split(routePath, '/');
      var pathParts := Split(p, '/');
      if |routeParts| != |pathParts| then NoMatch
      else CompareParts(router, routeParts, pathParts, 0, map[])
  }

  /**
   * The outcomes of BoltCompare: the raw-equality shortcut, a segment-count
   * mismatch, and what a segment-wise match binds.
   */
  lemma BoltCompareFacts(router: Router, path: string, rawPath: string)
    ensures var r := BoltCompare(router, path, rawPath);
            var routeParts := Split(Trim(rawPath, '/'), '/');
            var pathParts := Split(Trim(path, '/'), '/');
            (Trim(path, '/') == Trim(rawPath, '/') ==> r == Matched(map[])) &&
            (Trim(path, '/') != Trim(rawPath, '/') && |routeParts| != |pathParts| ==> r == NoMatch) &&
            (Trim(path, '/') != Trim(rawPath, '/') && r.Matched? ==>
               |routeParts| == |pathParts| && r.params.Keys == ParamKeys(routeParts, 0) &&
               forall j :: 0 <= j < |routeParts| && !IsParamPart(routeParts[j]) ==> routeParts[j] == pathParts[j]) &&
            (r.Fatal? ==> exists j :: 0 <= j < |routeParts| && UnknownValidator(router, routeParts[j]))
  {
    var r := BoltCompare(router, path, rawPath);
    var routeParts := Split(Trim(rawPath, '/'), '/');
    var pathParts := Split(Trim(path, '/'), '/');
    if Trim(path, '/') == Trim(rawPath, '/') {
      assert r == Matched(map[]);
    } else if |routeParts| != |pathParts| {
      assert r == NoMatch;
    } else {
      assert r == CompareParts(router, routeParts, pathParts, 0, map[]);
      CompareFacts(router, routeParts, pathParts, 0, map[]);
    }
  }

  /** server.comparePath as a loop over the route's segments. */
  method ComparePath(router: Router, path: string, route: Route) returns (m: Match)
    ensures m == BoltCompare(router, path, route.rawPath)
  {
    var p := Trim(path, '/');
    var routePath := Trim(route.rawPath, '/');
    if p == routePath {
      return Matched(map[]);
    }
    var routeParts := Split(routePath, '/');
    var pathParts := Split(p, '/');
    if |routeParts| != |pathParts| {
      return NoMatch;
    }
    m := CompareSegments(router, routeParts, pathParts);
  }

  /** The segment loop of server.comparePath, over segment lists of equal length. */
  method CompareSegments(router: Router, routeParts: seq<string>, pathParts: seq<string>) returns (m: Match)
    requires |routeParts| == |pathParts|
    ensures m == CompareParts(router, routeParts, pathParts, 0, map[])
  {
    var params: map<string, string> := map[];
    var i := 0;
    while i < |routeParts|
      invariant 0 <= i <= |routeParts|
      invariant CompareParts(router, routeParts, pathParts, 0, map[]) == CompareParts(router, routeParts, pathParts, i, params)
    {
      var step := CompareSegment(router, routeParts[i], pathParts[i]);
      match step {
        case Stop(outcome) =>
          return outcome;
        case Bind(key, value) =>
          params := params[key := value];
        case Next =>
      }
      i := i + 1;
    }
    return Matched(params);
  }

  /** The body of server.comparePath's loop, for one segment and its path part. */
  method CompareSegment(router: Router, part: string, value: string) returns (step: Step)
    ensures step == SegmentStep(router, part, value)
  {
    if IsParamPart(part) {
      var key := KeyOf(part);
      var bound := value;
      if '@' in key {
        var validator := router.GetValidator(ValidatorName(part));
        if validator.Fail? {
          return Stop(Fatal(validator.error.Message()));
        }
        key := BoundName(part);
        var c := validator.value(value);
        if c.err.Some? {
          return Stop(NoMatch);
        }
        bound := c.value;
      } else {
        assert IndexOf(key, '@') < 0;
      }
      return Bind(key, bound);
    } else if part != value {
      return Stop(NoMatch);
    }
    return Next;
  }

  /** A segment without '/' is its own trim and its own split. */
  lemma SlashFree(s: string)
    requires |s| > 0 && '/' !in s
    ensures Trim(s, '/') == s && Split(s, '/') == [s]
  {
    assert s[0] in s && s[|s| - 1] in s;
    SplitNoSep(s, '/');
  }

  /**
   * A one-segment route `{name@v}` against a different one-segment path: the
   * value is kept under `name` as the validator rewrote it, a validator error
   * is no match, and an unregistered `v` terminates with getValidator's error.
   */
  lemma ValidatedSegment(router: Router, part: string, value: string)
    requires Validated(part) && '/' !in part
    requires |value| > 0 && '/' !in value && value != part
    ensures ValidatorName(part) !in router.validators ==>
              BoltCompare(router, value, part) == Fatal("validator '" + ValidatorName(part) + "' does not exists")
    ensures ValidatorName(part) in router.validators && router.validators[ValidatorName(part)](value).err.Some? ==>
              BoltCompare(router, value, part) == NoMatch
    ensures ValidatorName(part) in router.validators && router.validators[ValidatorName(part)](value).err.None? ==>
              BoltCompare(router, value, part) == Matched(map[BoundName(part) := router.validators[ValidatorName(part)](value).value])
  {
    SlashFree(part);
    SlashFree(value);
    assert BoltCompare(router, value, part) == CompareParts(router, [part], [value], 0, map[]);
    var vn := ValidatorName(part);
    if vn in router.validators {
      var c := router.validators[vn](value);
      assert CompareParts(router, [part], [value], 1, map[][BoundName(part) := c.value]) == Matched(map[][BoundName(part) := c.value]);
      assert map[][BoundName(part) := c.value] == map[BoundName(part) := c.value];
    }
  }

  // ---------------------------------------------------------------------------
  // Route selection

  /** A route is tried for a request when its method is the request's or "*". */
  predicate Eligible(route: Route, httpMethod: string) {
    route.httpMethod == httpMethod || route.httpMethod == MethodAny
  }

  /** The outcome of the route loop of ServeHTTP. */
  datatype Selection = Selected(index: nat, params: map<string, string>) | NotFound | Terminated(reason: string)

  /** Route i's outcome for a request: NoMatch when its method is not eligible. */
  function TryRoute(router: Router, route: Route, req: Request): Match
    reads router
  {
    if Eligible(route, req.httpMethod) then BoltCompare(router, req.path, route.rawPath) else NoMatch
  }

  /** Every route's outcome for a request, in registration order. */
  function Outcomes(router: Router, routes: seq<Route>, req: Request): (outs: seq<Match>)
    reads router
    ensures |outs| == |routes|
    ensures forall j :: 0 <= j < |routes| ==> outs[j] == TryRoute(router, routes[j], req)
  {
    seq(|routes|, j reads router requires 0 <= j < |routes| => TryRoute(router, routes[j], req))
  }

  /**
   * The route loop from position i over the outcomes: the first outcome that
   * is not NoMatch decides; a match selects its route, a fatal comparison ends
   * the loop.
   */
  function Decide(outs: seq<Match>, i: nat): (s: Selection)
    requires i <= |outs|
    ensures s.Selected? ==> i <= s.index < |outs|
    decreases |outs| - i
  {
    if i == |outs| then NotFound
    else match outs[i]
      case NoMatch => Decide(outs, i + 1)
      case Matched(p) => Selected(i, p)
      case Fatal(reason) => Terminated(reason)
  }

  /** A route that does not match passes the decision to the next one. */
  lemma DecideSkips(outs: seq<Match>, i: nat)
    requires i < |outs| && outs[i] == NoMatch
    ensures Decide(outs, i) == Decide(outs, i + 1)
  {
  }

  /** The route ServeHTTP dispatches to, if any. */
  function Select(router: Router, routes: seq<Route>, req: Request): (s: Selection)
    reads router
    ensures s.Selected? ==> s.index < |routes|
  {
    Decide(Outcomes(router, routes, req), 0)
  }

  /**
   * First match in registration order: the selected outcome is that match and
   * every outcome before it is NoMatch; nothing is selected exactly when every
   * outcome from i on is NoMatch; a termination is some route's fatal outcome.
   */
  lemma {:induction false} DecideFacts(outs: seq<Match>, i: nat)
    requires i <= |outs|
    ensures var s := Decide(outs, i);
            (s.Selected? ==> outs[s.index] == Matched(s.params)) &&
            (s.Selected? ==> forall j :: i <= j < s.index ==> outs[j] == NoMatch) &&
            (s.NotFound? <==> forall j :: i <= j < |outs| ==> outs[j] == NoMatch) &&
            (s.Terminated? ==> exists j :: i <= j < |outs| && outs[j] == Fatal(s.reason))
    decreases |outs| - i
  {
    if i < |outs| && outs[i].NoMatch? {
      DecideFacts(outs, i + 1);
    }
  }

  /** The first-match rule of ServeHTTP stated over the routes themselves. */
  lemma SelectFacts(router: Router, routes: seq<Route>, req: Request)
    ensures var s := Select(router, routes, req);
            (s.Selected? ==> Eligible(routes[s.index], req.httpMethod) &&
                             BoltCompare(router, req.path, routes[s.index].rawPath) == Matched(s.params)) &&
            (s.Selected? ==> forall j :: 0 <= j < s.index ==> TryRoute(router, routes[j], req) == NoMatch) &&
            (s.NotFound? <==> forall j :: 0 <= j < |routes| ==> TryRoute(router, routes[j], req) == NoMatch)
  {
    DecideFacts(Outcomes(router, routes, req), 0);
  }

  /** A route's outcome other than NoMatch comes from an eligible route's comparison. */
  lemma TryRouteEligible(router: Router, route: Route, req: Request)
    ensures !TryRoute(router, route, req).NoMatch? ==>
              Eligible(route, req.httpMethod) && TryRoute(router, route, req) == BoltCompare(router, req.path, route.rawPath)
  {
  }

  // ---------------------------------------------------------------------------
  // The pipeline

  /** What the dispatcher does, in order. */
  datatype Event =
    | PreHookRan(hook: nat)
    | MiddlewareRan(middleware: nat)
    | HandlerRan(handler: nat)
    | ErrorHandled(err: Error)
    | PostHookRan(hook: nat)
    | NotFoundRan
    | HttpError(status: int, body: string)
    | ProcessExit(reason: string)

  function PreEvents(hooks: seq<Hook>): (es: seq<Event>)
    ensures |es| == |hooks| && forall k :: 0 <= k < |es| ==> es[k] == PreHookRan(hooks[k].id)
  {
    seq(|hooks|, k requires 0 <= k < |hooks| => PreHookRan(hooks[k].id))
  }

  function PostEvents(hooks: seq<Hook>): (es: seq<Event>)
    ensures |es| == |hooks| && forall k :: 0 <= k < |es| ==> es[k] == PostHookRan(hooks[k].id)
  {
    seq(|hooks|, k requires 0 <= k < |hooks| => PostHookRan(hooks[k].id))
  }

  /**
   * The middleware loop and the handler: each middleware runs in turn; an
   * error goes to the error handler and stops; `ok == false` stops silently;
   * after the last middleware the handler runs and its error goes to the error
   * handler.
   */
  function ChainEvents(mws: seq<Middleware>, handler: Handler): seq<Event>
    decreases |mws|
  {
    if mws == [] then [HandlerRan(handler.id)] + (if handler.err.Some? then [ErrorHandled(handler.err.value)] else [])
    else if mws[0].err.Some? then [MiddlewareRan(mws[0].id), ErrorHandled(mws[0].err.value)]
    else if !mws[0].ok then [MiddlewareRan(mws[0].id)]
    else [MiddlewareRan(mws[0].id)] + ChainEvents(mws[1..], handler)
  }

  /** handleRoute: the pre-request hooks, the middleware chain and handler, then (deferred) the post-request hooks. */
  function Pipeline(pre: seq<Hook>, post: seq<Hook>, mws: seq<Middleware>, handler: Handler): seq<Event> {
    PreEvents(pre) + ChainEvents(mws, handler) + PostEvents(post)
  }

  /** Every middleware let the request through with no error. */
  predicate AllPass(mws: seq<Middleware>) {
    forall k :: 0 <= k < |mws| ==> mws[k].ok && mws[k].err.None?
  }

  /**
   * The chain holds only middleware, handler and error-handler events; the
   * handler runs exactly when every middleware passed; the error handler runs
   * at most once, as the last event; the middlewares that run are a prefix of
   * the list, in order.
   */
  lemma {:induction false} ChainFacts(mws: seq<Middleware>, handler: Handler)
    ensures var es := ChainEvents(mws, handler);
            (forall k :: 0 <= k < |es| ==> es[k].MiddlewareRan? || es[k].HandlerRan? || es[k].ErrorHandled?) &&
            ((exists k :: 0 <= k < |es| && es[k].HandlerRan?) <==> AllPass(mws)) &&
            (forall k :: 0 <= k < |es| && es[k].ErrorHandled? ==> k == |es| - 1) &&
            (forall k :: 0 <= k < |es| && es[k].MiddlewareRan? ==> k < |mws| && es[k] == MiddlewareRan(mws[k].id))
    decreases |mws|
  {
    var es := ChainEvents(mws, handler);
    if mws != [] && mws[0].err.None? && mws[0].ok {
      ChainFacts(mws[1..], handler);
      var rest := ChainEvents(mws[1..], handler);
      assert es == [MiddlewareRan(mws[0].id)] + rest;
      assert forall k :: 1 <= k < |es| ==> es[k] == rest[k - 1];
      if AllPass(mws) {
        assert AllPass(mws[1..]) by {
          forall k | 0 <= k < |mws[1..]|
            ensures mws[1..][k].ok && mws[1..][k].err.None?
          {
            assert mws[1..][k] == mws[k + 1];
          }
        }
        var k :| 0 <= k < |rest| && rest[k].HandlerRan?;
        assert es[k + 1].HandlerRan?;
      }
      if exists k :: 0 <= k < |es| && es[k].HandlerRan? {
        var k :| 0 <= k < |es| && es[k].HandlerRan?;
        assert rest[k - 1].HandlerRan?;
        assert AllPass(mws[1..]);
        forall t | 0 <= t < |mws|
          ensures mws[t].ok && mws[t].err.None?
        {
          if t > 0 {
            assert mws[t] == mws[1..][t - 1];
          }
        }
      }
      forall k | 1 <= k < |es| && es[k].MiddlewareRan?
        ensures k < |mws| && es[k] == MiddlewareRan(mws[k].id)
      {
        assert rest[k - 1].MiddlewareRan?;
        assert mws[1..][k - 1] == mws[k];
      }
    } else if mws != [] {
      assert !AllPass(mws) by {
        assert !(mws[0].ok && mws[0].err.None?);
      }
      if mws[0].err.Some? {
        assert es == [MiddlewareRan(mws[0].id), ErrorHandled(mws[0].err.value)];
      } else {
        assert es == [MiddlewareRan(mws[0].id)];
      }
      assert forall k :: 0 <= k < |es| ==> !es[k].HandlerRan?;
    } else {
      var tail: seq<Event> := if handler.err.Some? then [ErrorHandled(handler.err.value)] else [];
      assert es == [HandlerRan(handler.id)] + tail;
      assert |es| <= 2 && es[0].HandlerRan?;
      assert forall k :: 0 <= k < |es| ==> !es[k].MiddlewareRan?;
    }
  }

  /** One MiddlewareRan event per middleware, in order. */
  function MiddlewareEvents(mws: seq<Middleware>): (es: seq<Event>)
    ensures |es| == |mws| && forall k :: 0 <= k < |es| ==> es[k] == MiddlewareRan(mws[k].id)
  {
    seq(|mws|, k requires 0 <= k < |mws| => MiddlewareRan(mws[k].id))
  }

  /** Middleware j is the first that did not let the request through. */
  predicate StopsAt(mws: seq<Middleware>, j: int) {
    0 <= j < |mws| && AllPass(mws[..j]) && !(mws[j].ok && mws[j].err.None?)
  }

  /**
   * The chain when middleware j is the first to stop it: middlewares 0..j run,
   * then the error handler receives middleware j's error if it returned one,
   * and nothing else runs (`ok == false` with no error stops silently).
   */
  lemma {:induction false} ChainStops(mws: seq<Middleware>, handler: Handler, j: nat)
    requires StopsAt(mws, j)
    ensures ChainEvents(mws, handler) ==
            MiddlewareEvents(mws[..j + 1]) + (if mws[j].err.Some? then [ErrorHandled(mws[j].err.value)] else [])
    decreases j
  {
    var tail := if mws[j].err.Some? then [ErrorHandled(mws[j].err.value)] else [];
    if j > 0 {
      assert mws[..j][0] == mws[0];
      var pre := mws[1..][..j - 1];
      assert AllPass(pre) by {
        forall k | 0 <= k < |pre|
          ensures pre[k].ok && pre[k].err.None?
        {
          assert pre[k] == mws[..j][k + 1];
        }
      }
      assert StopsAt(mws[1..], j - 1);
      ChainStops(mws[1..], handler, j - 1);
      assert MiddlewareEvents(mws[..j + 1]) == [MiddlewareRan(mws[0].id)] + MiddlewareEvents(mws[1..][..j]);
    } else {
      assert MiddlewareEvents(mws[..1]) == [MiddlewareRan(mws[0].id)];
    }
  }

  /**
   * The chain when every middleware lets the request through: all middlewares
   * run in order, then the handler, then the error handler with the handler's
   * error exactly when it returned one.
   */
  lemma {:induction false} ChainCompletes(mws: seq<Middleware>, handler: Handler)
    requires AllPass(mws)
    ensures ChainEvents(mws, handler) ==
            MiddlewareEvents(mws) + [HandlerRan(handler.id)] +
            (if handler.err.Some? then [ErrorHandled(handler.err.value)] else [])
    decreases |mws|
  {
    if mws != [] {
      assert mws[0].ok && mws[0].err.None?;
      assert AllPass(mws[1..]) by {
        forall k | 0 <= k < |mws| - 1
          ensures mws[1..][k].ok && mws[1..][k].err.None?
        {
          assert mws[1..][k] == mws[k + 1];
        }
      }
      ChainCompletes(mws[1..], handler);
      assert MiddlewareEvents(mws) == [MiddlewareRan(mws[0].id)] + MiddlewareEvents(mws[1..]);
    }
  }

  /** Either every middleware passes, or some middleware is the first to stop the chain. */
  lemma {:induction false} ChainExit(mws: seq<Middleware>)
    ensures AllPass(mws) <==> !exists j :: StopsAt(mws, j)
    decreases |mws|
  {
    if !AllPass(mws) {
      var k :| 0 <= k < |mws| && !(mws[k].ok && mws[k].err.None?);
      if mws[0].ok && mws[0].err.None? {
        ChainExit(mws[1..]);
        assert !AllPass(mws[1..]) by {
          assert mws[1..][k - 1] == mws[k];
        }
        var j :| StopsAt(mws[1..], j);
        var pre := mws[..j + 1];
        assert AllPass(pre) by {
          forall t | 0 <= t < |pre|
            ensures pre[t].ok && pre[t].err.None?
          {
            if t > 0 {
              assert pre[t] == mws[1..][..j][t - 1];
            }
          }
        }
        assert StopsAt(mws, j + 1);
      } else {
        assert StopsAt(mws, 0);
      }
    }
  }

  /**
   * Pre-request hooks come first and in order; post-request hooks come last, in
   * order, exactly once each, however the chain ended; no hook event occurs
   * between them.
   */
  lemma HooksFramePipeline(pre: seq<Hook>, post: seq<Hook>, mws: seq<Middleware>, handler: Handler)
    ensures var es := Pipeline(pre, post, mws, handler);
            |es| >= |pre| + |post| &&
            es[..|pre|] == PreEvents(pre) &&
            es[|es| - |post|..] == PostEvents(post) &&
            forall k :: |pre| <= k < |es| - |post| ==> !es[k].PreHookRan? && !es[k].PostHookRan?
  {
    ChainFacts(mws, handler);
    var es := Pipeline(pre, post, mws, handler);
    var chain := ChainEvents(mws, handler);
    assert es[..|pre|] == PreEvents(pre);
    assert es[|es| - |post|..] == PostEvents(post);
    forall k | |pre| <= k < |es| - |post|
      ensures !es[k].PreHookRan? && !es[k].PostHookRan?
    {
      assert es[k] == chain[k - |pre|];
    }
  }

  /**
   * handleRoute: runs the pre-request hooks, the middlewares and the handler,
   * and then the post-request hooks, which the Go code defers so that they run
   * on every exit from the middleware loop.
   */
  method HandleRoute(app: Bolt, route: Route) returns (trace: seq<Event>)
    ensures trace == Pipeline(app.Hooks(PreRequestHook), app.Hooks(PostRequestHook), route.middlewares, route.handler)
  {
    var pre := app.Hooks(PreRequestHook);
    var post := app.Hooks(PostRequestHook);
    trace := [];
    for k := 0 to |pre|
      invariant trace == PreEvents(pre[..k])
    {
      trace := trace + [PreHookRan(pre[k].id)];
    }
    assert pre[..|pre|] == pre;
    var mws := route.middlewares;
    var chain: seq<Event> := [];
    var stopped := false;
    var i := 0;
    while i < |mws| && !stopped
      invariant 0 <= i <= |mws|
      invariant !stopped ==> ChainEvents(mws, route.handler) == chain + ChainEvents(mws[i..], route.handler)
      invariant stopped ==> ChainEvents(mws, route.handler) == chain
      decreases |mws| - i, if stopped then 0 else 1
    {
      var m := mws[i];
      assert mws[i..][0] == m && mws[i..][1..] == mws[i + 1..];
      chain := chain + [MiddlewareRan(m.id)];
      if m.err.Some? {
        chain := chain + [ErrorHandled(m.err.value)];
        stopped := true;
      } else if !m.ok {
        stopped := true;
      } else {
        i := i + 1;
      }
    }
    if !stopped {
      assert mws[i..] == [];
      chain := chain + [HandlerRan(route.handler.id)];
      if route.handler.err.Some? {
        chain := chain + [ErrorHandled(route.handler.err.value)];
      }
    }
    trace := trace + chain;
    for k := 0 to |post|
      invariant trace == PreEvents(pre) + ChainEvents(mws, route.handler) + PostEvents(post[..k])
    {
      trace := trace + [PostHookRan(post[k].id)];
    }
    assert post[..|post|] == post;
  }

  /** What ServeHTTP does once the route loop has an outcome. */
  function Served(app: Bolt, s: Selection): (es: seq<Event>)
    reads app, app.config
    requires app.config.notFoundHandler.Some?
    requires s.Selected? ==> s.index < |app.router.routes|
    reads app.router
  {
    match s
    case Selected(i, _) =>
      Pipeline(app.Hooks(PreRequestHook), app.Hooks(PostRequestHook), app.router.routes[i].middlewares, app.router.routes[i].handler)
    case NotFound =>
      [NotFoundRan] +
      (match NotFoundResult(app.config.notFoundHandler.value)
       case Some(e) => [HttpError(StatusInternalServerError, e.Message())]
       case None => [])
    case Terminated(reason) => [ProcessExit(reason)]
  }

  /**
   * ServeHTTP without the public-directory branch: the route loop, then the
   * selected route's pipeline, or the not-found handler, whose error is sent
   * with status 500 by http.Error rather than through the error handler.
   */
  method ServeHTTP(app: Bolt, req: Request) returns (sel: Selection, trace: seq<Event>)
    requires app.config.notFoundHandler.Some?
    ensures sel == Select(app.router, app.router.routes, req)
    ensures sel.Selected? ==> sel.index < |app.router.routes|
    ensures trace == Served(app, sel)
  {
    var routes := app.router.ExportRoutes();
    sel := FindRoute(app.router, routes, req);
    match sel {
      case Selected(i, _) =>
        trace := HandleRoute(app, routes[i]);
      case Terminated(reason) =>
        trace := [ProcessExit(reason)];
      case NotFound =>
        var err := NotFoundResult(app.config.notFoundHandler.value);
        trace := [NotFoundRan];
        if err.Some? {
          trace := trace + [HttpError(StatusInternalServerError, err.value.Message())];
        }
    }
  }

  /** One iteration of ServeHTTP's route loop: a route of another method is skipped, else the paths are compared. */
  method RouteOutcome(router: Router, route: Route, req: Request) returns (m: Match)
    ensures m == TryRoute(router, route, req)
  {
    if route.httpMethod == req.httpMethod || route.httpMethod == MethodAny {
      m := ComparePath(router, req.path, route);
    } else {
      m := NoMatch;
    }
  }

  /**
   * The route loop of ServeHTTP: routes in registration order, skipping those
   * of another method; the first match is selected and a fatal comparison
   * ends the loop.
   */
  method FindRoute(router: Router, routes: seq<Route>, req: Request) returns (sel: Selection)
    ensures sel == Select(router, routes, req)
  {
    ghost var outs := Outcomes(router, routes, req);
    assert Select(router, routes, req) == Decide(outs, 0);
    var i := 0;
    while i < |routes|
      invariant 0 <= i <= |routes|
      invariant Decide(outs, 0) == Decide(outs, i)
    {
      var m := RouteOutcome(router, routes[i], req);
      assert outs[i] == m;
      if m.Fatal? {
        return Terminated(m.reason);
      }
      if m.Matched? {
        return Selected(i, m.params);
      }
      DecideSkips(outs, i);
      i := i + 1;
    }
    return NotFound;
  }

  /** With the default not-found handler, an unmatched request ends in a 500 response reading "Not found", not a 404. */
  lemma DefaultNotFoundIs500(app: Bolt)
    requires app.config.notFoundHandler == Some(DefaultNotFoundHandler)
    ensures Served(app, NotFound) == [NotFoundRan, HttpError(StatusInternalServerError, "Not found")]
  {
  }
}
