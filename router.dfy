/**
 * The bolt route table (router.go): an append-only list of routes, one entry per
 * concrete path a template expands to, a name-to-validator registry, and router
 * groups that forward to the shared table with a joined prefix and prepended
 * middlewares.
 *
 * Where the Go code calls os.Exit, the methods here return `fatal == true`; the
 * state they leave behind is then never observed.
 */
module BoltRouter {
  import opened Wrappers
  import opened Types
  import opened GoPath
  import opened OptionalRoutes

  const MethodGet := "GET"
  const MethodPost := "POST"
  const MethodPut := "PUT"
  const MethodDelete := "DELETE"
  const MethodPatch := "PATCH"
  const MethodOptions := "OPTIONS"
  /** The method `All` registers; the dispatcher treats it as matching every method. */
  const MethodAny := "*"

  /** One registered route: a concrete path (no optional markers left) and what serves it. */
  datatype Route = Route(name: string, httpMethod: string, rawPath: string, handler: Handler, middlewares: seq<Middleware>)

  /** routeExists: some entry has exactly this method and this raw path. */
  predicate Registered(routes: seq<Route>, httpMethod: string, path: string) {
    exists i :: 0 <= i < |routes| && routes[i].httpMethod == httpMethod && routes[i].rawPath == path
  }

  /** The entries registered for `paths`, in order, sharing method, handler and middlewares. */
  function Entries(httpMethod: string, paths: seq<string>, handler: Handler, mws: seq<Middleware>): seq<Route> {
    seq(|paths|, i requires 0 <= i < |paths| => Route("", httpMethod, paths[i], handler, mws))
  }

  /**
   * The loop of router.Add: each path in turn is checked against the table as it
   * stands at that point and appended; None when one of them is already there.
   */
  function Register(routes: seq<Route>, httpMethod: string, paths: seq<string>, handler: Handler, mws: seq<Middleware>): Option<seq<Route>>
    decreases |paths|
  {
    if paths == [] then Some(routes)
    else if Registered(routes, httpMethod, paths[0]) then None
    else Register(routes + [Route("", httpMethod, paths[0], handler, mws)], httpMethod, paths[1..], handler, mws)
  }

  /** What a call of Add promises about the table before and after it. */
  predicate AddOutcome(before: seq<Route>, after: seq<Route>, fatal: bool,
                       httpMethod: string, path: string, handler: Handler, mws: seq<Middleware>)
  {
    var r := Register(before, httpMethod, CreateOptionalRoutes(path), handler, mws);
    (fatal <==> r.None?) && (!fatal ==> r == Some(after)) &&
    |before| <= |after| && after[..|before|] == before
  }

  // ---------------------------------------------------------------------------
  // Properties of registration

  /** A successful registration appends exactly one entry per path, in order, after the existing ones. */
  lemma {:induction false} RegisterAppends(routes: seq<Route>, httpMethod: string, paths: seq<string>, handler: Handler, mws: seq<Middleware>)
    requires Register(routes, httpMethod, paths, handler, mws).Some?
    ensures Register(routes, httpMethod, paths, handler, mws) == Some(routes + Entries(httpMethod, paths, handler, mws))
    decreases |paths|
  {
    if paths != [] {
      var e := Route("", httpMethod, paths[0], handler, mws);
      RegisterAppends(routes + [e], httpMethod, paths[1..], handler, mws);
      assert routes + [e] + Entries(httpMethod, paths[1..], handler, mws) == routes + ([e] + Entries(httpMethod, paths[1..], handler, mws));
      assert [e] + Entries(httpMethod, paths[1..], handler, mws) == Entries(httpMethod, paths, handler, mws);
    } else {
      assert routes + Entries(httpMethod, paths, handler, mws) == routes;
    }
  }

  /**
   * Registration fails exactly when some path is already in the table under the
   * same method, or repeats an earlier path of the same call.
   */
  lemma {:induction false} RegisterFails(routes: seq<Route>, httpMethod: string, paths: seq<string>, handler: Handler, mws: seq<Middleware>)
    ensures Register(routes, httpMethod, paths, handler, mws).None? <==>
            exists i :: 0 <= i < |paths| && (Registered(routes, httpMethod, paths[i]) || paths[i] in paths[..i])
    decreases |paths|
  {
    if paths != [] {
      var e := Route("", httpMethod, paths[0], handler, mws);
      var routes' := routes + [e];
      RegisterFails(routes', httpMethod, paths[1..], handler, mws);
      if Registered(routes, httpMethod, paths[0]) {
        assert paths[0] == paths[0];
      } else {
        // A later path clashes with the grown table iff it clashes with the old
        // table or with one of the paths before it.
        forall i | 1 <= i < |paths|
          ensures (Registered(routes', httpMethod, paths[i]) || paths[i] in paths[1..][..i - 1]) <==>
                  (Registered(routes, httpMethod, paths[i]) || paths[i] in paths[..i])
        {
          assert paths[..i] == [paths[0]] + paths[1..][..i - 1];
          if Registered(routes', httpMethod, paths[i]) && !Registered(routes, httpMethod, paths[i]) {
            var j :| 0 <= j < |routes'| && routes'[j].httpMethod == httpMethod && routes'[j].rawPath == paths[i];
          }
          if Registered(routes, httpMethod, paths[i]) {
            var j :| 0 <= j < |routes| && routes[j].httpMethod == httpMethod && routes[j].rawPath == paths[i];
            assert routes'[j] == routes[j];
          }
          if paths[i] == paths[0] {
            assert routes'[|routes|] == e;
          }
        }
        if exists i :: 0 <= i < |paths| && (Registered(routes, httpMethod, paths[i]) || paths[i] in paths[..i]) {
          var i :| 0 <= i < |paths| && (Registered(routes, httpMethod, paths[i]) || paths[i] in paths[..i]);
          assert i >= 1;
          assert paths[1..][i - 1] == paths[i];
        }
        if exists i :: 0 <= i < |paths[1..]| && (Registered(routes', httpMethod, paths[1..][i]) || paths[1..][i] in paths[1..][..i]) {
          var i :| 0 <= i < |paths[1..]| && (Registered(routes', httpMethod, paths[1..][i]) || paths[1..][i] in paths[1..][..i]);
          assert paths[1..][i] == paths[i + 1];
        }
      }
    }
  }

  /** Adding the same template twice under the same method terminates the second time. */
  lemma SameTemplateTwiceFails(routes: seq<Route>, httpMethod: string, path: string, h1: Handler, m1: seq<Middleware>, h2: Handler, m2: seq<Middleware>)
    requires Register(routes, httpMethod, CreateOptionalRoutes(path), h1, m1).Some?
    ensures Register(Register(routes, httpMethod, CreateOptionalRoutes(path), h1, m1).value, httpMethod, CreateOptionalRoutes(path), h2, m2).None?
  {
    var paths := CreateOptionalRoutes(path);
    RegisterAppends(routes, httpMethod, paths, h1, m1);
    var t := routes + Entries(httpMethod, paths, h1, m1);
    assert t[|routes|] == Route("", httpMethod, paths[0], h1, m1);
    assert Registered(t, httpMethod, paths[0]);
    RegisterFails(t, httpMethod, paths, h2, m2);
  }

  /** A path registered under "*" does not block the same path under GET, and a GET path does not block it under "*". */
  lemma AnyIsItsOwnMethod(path: string, h1: Handler, h2: Handler)
    ensures Register([], MethodAny, [path], h1, []) == Some([Route("", MethodAny, path, h1, [])])
    ensures Register([Route("", MethodAny, path, h1, [])], MethodGet, [path], h2, []).Some?
    ensures Register([Route("", MethodGet, path, h1, [])], MethodAny, [path], h2, []).Some?
  {
    var any := Route("", MethodAny, path, h1, []);
    var get := Route("", MethodGet, path, h1, []);
    assert [path][1..] == [];
    assert [] + [any] == [any];
    assert !Registered([any], MethodGet, path);
    assert !Registered([get], MethodAny, path);
  }

  // ---------------------------------------------------------------------------
  // The router object

  class Router {
    /** The route table, in registration order. */
    var routes: seq<Route>
    /** The registered route parameter validators, by name. */
    var validators: map<string, Validator>

    /** newRouter: an empty table and no validators. */
    constructor ()
      ensures routes == [] && validators == map[]
    {
      routes := [];
      validators := map[];
    }

    /** routeExists: a linear scan of the table. */
    method RouteExists(httpMethod: string, path: string) returns (b: bool)
      ensures b <==> Registered(routes, httpMethod, path)
    {
      var i := 0;
      while i < |routes|
        invariant 0 <= i <= |routes|
        invariant forall j :: 0 <= j < i ==> !(routes[j].httpMethod == httpMethod && routes[j].rawPath == path)
      {
        if routes[i].httpMethod == httpMethod && routes[i].rawPath == path {
          return true;
        }
        i := i + 1;
      }
      return false;
    }

    /**
     * Add: one entry per path createOptionalRoutes gives for `path`, each checked
     * for an exact (method, path) duplicate before it is appended.
     */
    method Add(httpMethod: string, path: string, handler: Handler, mws: seq<Middleware>) returns (fatal: bool)
      modifies this
      ensures AddOutcome(old(routes), routes, fatal, httpMethod, path, handler, mws)
      ensures validators == old(validators)
    {
      var paths := CreateOptionalRoutes(path);
      ghost var before := routes;
      var i := 0;
      while i < |paths|
        invariant 0 <= i <= |paths|
        invariant |before| <= |routes| && routes[..|before|] == before
        invariant Register(before, httpMethod, paths, handler, mws) == Register(routes, httpMethod, paths[i..], handler, mws)
        invariant validators == old(validators)
      {
        var exists_ := RouteExists(httpMethod, paths[i]);
        if exists_ {
          return true;
        }
        assert paths[i..][1..] == paths[i + 1..];
        routes := routes + [Route("", httpMethod, paths[i], handler, mws)];
        i := i + 1;
      }
      assert paths[i..] == [];
      return false;
    }

    method Get(path: string, handler: Handler, mws: seq<Middleware>) returns (fatal: bool)
      modifies this
      ensures AddOutcome(old(routes), routes, fatal, MethodGet, path, handler, mws)
      ensures validators == old(validators)
    {
      fatal := Add(MethodGet, path, handler, mws);
    }

    method Post(path: string, handler: Handler, mws: seq<Middleware>) returns (fatal: bool)
      modifies this
      ensures AddOutcome(old(routes), routes, fatal, MethodPost, path, handler, mws)
      ensures validators == old(validators)
    {
      fatal := Add(MethodPost, path, handler, mws);
    }

    method Put(path: string, handler: Handler, mws: seq<Middleware>) returns (fatal: bool)
      modifies this
      ensures AddOutcome(old(routes), routes, fatal, MethodPut, path, handler, mws)
      ensures validators == old(validators)
    {
      fatal := Add(MethodPut, path, handler, mws);
    }

    method Delete(path: string, handler: Handler, mws: seq<Middleware>) returns (fatal: bool)
      modifies this
      ensures AddOutcome(old(routes), routes, fatal, MethodDelete, path, handler, mws)
      ensures validators == old(validators)
    {
      fatal := Add(MethodDelete, path, handler, mws);
    }

    method Patch(path: string, handler: Handler, mws: seq<Middleware>) returns (fatal: bool)
      modifies this
      ensures AddOutcome(old(routes), routes, fatal, MethodPatch, path, handler, mws)
      ensures validators == old(validators)
    {
      fatal := Add(MethodPatch, path, handler, mws);
    }

    method Options(path: string, handler: Handler, mws: seq<Middleware>) returns (fatal: bool)
      modifies this
      ensures AddOutcome(old(routes), routes, fatal, MethodOptions, path, handler, mws)
      ensures validators == old(validators)
    {
      fatal := Add(MethodOptions, path, handler, mws);
    }

    /** All: registered under the method "*". */
    method All(path: string, handler: Handler, mws: seq<Middleware>) returns (fatal: bool)
      modifies this
      ensures AddOutcome(old(routes), routes, fatal, MethodAny, path, handler, mws)
      ensures validators == old(validators)
    {
      fatal := Add(MethodAny, path, handler, mws);
    }

    /** WS: registered as a GET route; `wsHandler` is the WebSocket handler after wsHandler wraps it. */
    method WS(path: string, wsHandler: Handler, mws: seq<Middleware>) returns (fatal: bool)
      modifies this
      ensures AddOutcome(old(routes), routes, fatal, MethodGet, path, wsHandler, mws)
      ensures validators == old(validators)
    {
      fatal := Add(MethodGet, path, wsHandler, mws);
    }

    /** Group: a view on this router with a prefix and middlewares of its own. */
    method Group(prefix: string, mws: seq<Middleware>) returns (g: RouterGroup)
      ensures fresh(g)
      ensures g.router == this && g.prefix == prefix && g.middlewares == mws
    {
      g := new RouterGroup(this, prefix, mws);
    }

    /** RegisterRouteParamValidator: a name may be registered only once. */
    method RegisterRouteParamValidator(name: string, fn: Validator) returns (fatal: bool)
      modifies this
      ensures fatal <==> name in old(validators)
      ensures !fatal ==> validators == old(validators)[name := fn]
      ensures fatal ==> validators == old(validators)
      ensures routes == old(routes)
    {
      if name in validators {
        return true;
      }
      validators := validators[name := fn];
      return false;
    }

    /** getValidator: the registered function, or an error naming the missing validator. */
    function GetValidator(name: string): (r: Result<Validator, Error>)
      reads this
      ensures r.Fail? <==> name !in validators
      ensures r.Ok? ==> r.value == validators[name]
      ensures r.Fail? ==> r.error == Plain("validator '" + name + "' does not exists")
    {
      if name in validators then Ok(validators[name])
      else Fail(Plain("validator '" + name + "' does not exists"))
    }

    /** exportRoutes: the table in registration order. */
    function ExportRoutes(): seq<Route>
      reads this
    {
      routes
    }
  }

  /**
   * routerGroup: registers on the shared router, with its prefix joined in front
   * of every path and its middlewares in front of every route's own.
   */
  class RouterGroup {
    const router: Router
    const prefix: string
    const middlewares: seq<Middleware>

    constructor (router: Router, prefix: string, middlewares: seq<Middleware>)
      ensures this.router == router && this.prefix == prefix && this.middlewares == middlewares
    {
      this.router := router;
      this.prefix := prefix;
      this.middlewares := middlewares;
    }

    /** routerGroup.Add: path.Join(prefix, p), group middlewares followed by the route's. */
    method Add(httpMethod: string, p: string, handler: Handler, mws: seq<Middleware>) returns (fatal: bool)
      modifies router
      ensures AddOutcome(old(router.routes), router.routes, fatal, httpMethod, JoinPath(prefix, p), handler, middlewares + mws)
      ensures router.validators == old(router.validators)
    {
      fatal := router.Add(httpMethod, JoinPath(prefix, p), handler, middlewares + mws);
    }

    method Get(path: string, handler: Handler, mws: seq<Middleware>) returns (fatal: bool)
      modifies router
      ensures AddOutcome(old(router.routes), router.routes, fatal, MethodGet, JoinPath(prefix, path), handler, middlewares + mws)
      ensures router.validators == old(router.validators)
    {
      fatal := Add(MethodGet, path, handler, mws);
    }

    method Post(path: string, handler: Handler, mws: seq<Middleware>) returns (fatal: bool)
      modifies router
      ensures AddOutcome(old(router.routes), router.routes, fatal, MethodPost, JoinPath(prefix, path), handler, middlewares + mws)
      ensures router.validators == old(router.validators)
    {
      fatal := Add(MethodPost, path, handler, mws);
    }

    method Put(path: string, handler: Handler, mws: seq<Middleware>) returns (fatal: bool)
      modifies router
      ensures AddOutcome(old(router.routes), router.routes, fatal, MethodPut, JoinPath(prefix, path), handler, middlewares + mws)
      ensures router.validators == old(router.validators)
    {
      fatal := Add(MethodPut, path, handler, mws);
    }

    method Delete(path: string, handler: Handler, mws: seq<Middleware>) returns (fatal: bool)
      modifies router
      ensures AddOutcome(old(router.routes), router.routes, fatal, MethodDelete, JoinPath(prefix, path), handler, middlewares + mws)
      ensures router.validators == old(router.validators)
    {
      fatal := Add(MethodDelete, path, handler, mws);
    }

    method Patch(path: string, handler: Handler, mws: seq<Middleware>) returns (fatal: bool)
      modifies router
      ensures AddOutcome(old(router.routes), router.routes, fatal, MethodPatch, JoinPath(prefix, path), handler, middlewares + mws)
      ensures router.validators == old(router.validators)
    {
      fatal := Add(MethodPatch, path, handler, mws);
    }

    method Options(path: string, handler: Handler, mws: seq<Middleware>) returns (fatal: bool)
      modifies router
      ensures AddOutcome(old(router.routes), router.routes, fatal, MethodOptions, JoinPath(prefix, path), handler, middlewares + mws)
      ensures router.validators == old(router.validators)
    {
      fatal := Add(MethodOptions, path, handler, mws);
    }

    method All(path: string, handler: Handler, mws: seq<Middleware>) returns (fatal: bool)
      modifies router
      ensures AddOutcome(old(router.routes), router.routes, fatal, MethodAny, JoinPath(prefix, path), handler, middlewares + mws)
      ensures router.validators == old(router.validators)
    {
      fatal := Add(MethodAny, path, handler, mws);
    }

    method WS(path: string, wsHandler: Handler, mws: seq<Middleware>) returns (fatal: bool)
      modifies router
      ensures AddOutcome(old(router.routes), router.routes, fatal, MethodGet, JoinPath(prefix, path), wsHandler, middlewares + mws)
      ensures router.validators == old(router.validators)
    {
      fatal := Add(MethodGet, path, wsHandler, mws);
    }

    /**
     * routerGroup.Group: the prefixes are joined, but the new group keeps only
     * the middlewares given here; this group's middlewares are not inherited.
     */
    method Group(prefix2: string, mws: seq<Middleware>) returns (g: RouterGroup)
      ensures fresh(g)
      ensures g.router == router && g.prefix == JoinPath(prefix, prefix2) && g.middlewares == mws
    {
      g := new RouterGroup(router, JoinPath(prefix, prefix2), mws);
    }
  }

  /**
   * A group route without optional markers registers one entry whose path is the
   * joined prefix and whose middlewares are the group's followed by the route's.
   */
  lemma GroupRouteEntry(routes: seq<Route>, httpMethod: string, prefix: string, p: string,
                        handler: Handler, groupMws: seq<Middleware>, mws: seq<Middleware>)
    requires '?' !in JoinPath(prefix, p)
    requires !Registered(routes, httpMethod, JoinPath(prefix, p))
    ensures Register(routes, httpMethod, CreateOptionalRoutes(JoinPath(prefix, p)), handler, groupMws + mws)
            == Some(routes + [Route("", httpMethod, JoinPath(prefix, p), handler, groupMws + mws)])
  {
    NoQuestionMarkIsItself(JoinPath(prefix, p));
  }
}
