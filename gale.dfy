/**
 * The gale application (gale.go): the same assembly as bolt's, with hooks that
 * return an error, and accessors for the configuration and the router.
 *
 * Gale's own router and configuration files are not part of this model; the
 * bolt Router and Config stand in for them.
 */
module GaleApp {
  import opened Wrappers
  import opened Types
  import opened BoltRouter
  import opened BoltConfig
  import opened RouteValidators
  import opened BoltApp

  class Gale {
    var config: Config
    /** The embedded CompleteRouter. */
    const router: Router
    var publicDir: string
    var hooks: map<HookKind, seq<GaleHook>>

    constructor (config: Config, router: Router)
      ensures this.config == config && this.router == router && publicDir == "" && hooks == map[]
    {
      this.config := config;
      this.router := router;
      publicDir := "";
      hooks := map[];
    }

    /** Hook: at least one function, appended after the earlier hooks of that kind. */
    method Hook(kind: HookKind, fns: seq<GaleHook>) returns (fatal: bool)
      modifies this
      ensures fatal <==> |fns| == 0
      ensures fatal ==> hooks == old(hooks)
      ensures !fatal ==> hooks == AppendHooks(old(hooks), kind, fns)
      ensures config == old(config) && publicDir == old(publicDir)
    {
      if |fns| == 0 {
        return true;
      }
      hooks := AppendHooks(hooks, kind, fns);
      return false;
    }

    /** Config: the configuration New stored. */
    function Config(): (c: Config)
      reads this
      ensures c == config
    {
      config
    }

    /** Router: the embedded router. */
    function Router(): (r: Router)
      ensures r == router
    {
      router
    }
  }

  /**
   * New: the first configuration given (else defaultConfig()), checked; an
   * empty router, no hooks, no public directory; then the five built-in
   * validators.
   */
  method New(conf: seq<Config>, uuidParse: string -> Option<Error>) returns (g: Gale)
    modifies if |conf| > 0 then {conf[0]} else {}
    ensures fresh(g) && fresh(g.router)
    ensures |conf| > 0 ==> g.Config() == conf[0]
    ensures |conf| == 0 ==> fresh(g.config) && g.config.errorHandler == Some(DefaultErrorHandler) &&
                            g.config.notFoundHandler == Some(DefaultNotFoundHandler) && g.config.mode == Development
    ensures g.config.Filled()
    ensures |conf| > 0 ==> g.config.errorHandler ==
                           if old(conf[0].errorHandler).None? then Some(DefaultErrorHandler) else old(conf[0].errorHandler)
    ensures |conf| > 0 ==> g.config.notFoundHandler ==
                           if old(conf[0].notFoundHandler).None? then Some(DefaultNotFoundHandler) else old(conf[0].notFoundHandler)
    ensures |conf| > 0 ==> g.config.mode == if old(conf[0].mode) == "" then Development else old(conf[0].mode)
    ensures |conf| > 0 && old(conf[0].session) != null ==> g.config.session == old(conf[0].session)
    ensures |conf| > 0 && old(conf[0].websocket) != null ==> g.config.websocket == old(conf[0].websocket)
    ensures g.Router().routes == [] && g.Router().validators.Keys == DefaultValidatorNames
    ensures g.router.validators["int"] == ValidateInt && g.router.validators["bool"] == ValidateBool
    ensures g.router.validators["alpha"] == ValidateAlpha && g.router.validators["alphanumeric"] == ValidateAlphaNumeric
    ensures g.router.validators["uuid"] == UUIDValidator(uuidParse)
    ensures g.hooks == map[] && g.publicDir == ""
  {
    var c: Config;
    if |conf| > 0 {
      c := conf[0];
    } else {
      c := DefaultConfig();
    }
    c.Check();
    var r := new Router();
    g := new Gale(c, r);
    var fatal := RegisterDefaultRouteValidators(g.router, uuidParse);
    assert !fatal;
    DefaultsBound(map[], uuidParse);
  }
}
