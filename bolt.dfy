/**
 * The bolt application (bolt.go): its configuration, the embedded router, the
 * public directory and the request hooks, and how New assembles them.
 *
 * Where the Go code calls os.Exit, Hook returns `fatal == true`.
 */
module BoltApp {
  import opened Wrappers
  import opened Types
  import opened BoltRouter
  import opened BoltConfig
  import opened RouteValidators

  /** The hooks registered for one kind, none when the kind has no entry. */
  function HooksOf<H>(hooks: map<HookKind, seq<H>>, kind: HookKind): seq<H> {
    if kind in hooks then hooks[kind] else []
  }

  /**
   * The hook table after appending `fns` to one kind: that kind's list grows at
   * its end, in argument order, and every other kind keeps its list.
   */
  function AppendHooks<H>(hooks: map<HookKind, seq<H>>, kind: HookKind, fns: seq<H>): (r: map<HookKind, seq<H>>)
    ensures HooksOf(r, kind) == HooksOf(hooks, kind) + fns
    ensures forall k :: k != kind ==> HooksOf(r, k) == HooksOf(hooks, k)
    ensures |fns| > 0 ==> r.Keys == hooks.Keys + {kind}
  {
    hooks[kind := HooksOf(hooks, kind) + fns]
  }

  /** Two registrations for the same kind run the first call's hooks before the second's. */
  lemma HooksInCallOrder<H>(hooks: map<HookKind, seq<H>>, kind: HookKind, first: seq<H>, second: seq<H>)
    ensures HooksOf(AppendHooks(AppendHooks(hooks, kind, first), kind, second), kind) == HooksOf(hooks, kind) + first + second
  {
  }

  class Bolt {
    var config: Config
    /** The embedded CompleteRouter. */
    const router: Router
    var publicDir: string
    var hooks: map<HookKind, seq<Hook>>

    constructor (config: Config, router: Router)
      ensures this.config == config && this.router == router && publicDir == "" && hooks == map[]
    {
      this.config := config;
      this.router := router;
      publicDir := "";
      hooks := map[];
    }

    /** The hooks of one kind, in registration order. */
    function Hooks(kind: HookKind): seq<Hook>
      reads this
    {
      HooksOf(hooks, kind)
    }

    /** Hook: at least one function, appended after the earlier hooks of that kind. */
    method Hook(kind: HookKind, fns: seq<Hook>) returns (fatal: bool)
      modifies this
      ensures fatal <==> |fns| == 0
      ensures fatal ==> hooks == old(hooks)
      ensures !fatal ==> hooks == AppendHooks(old(hooks), kind, fns)
      ensures config == old(config) && publicDir == old(publicDir)
    {
      if |fns| == 0 {
        return true;
      }
      hooks := AppendHooks(hooks, kind, fns);
      return false;
    }
  }

  /**
   * New: the first configuration given (else defaultConfig()), checked; an
   * empty router, no hooks, no public directory; then the five built-in
   * validators, which a fresh router always accepts.
   */
  method New(conf: seq<Config>, uuidParse: string -> Option<Error>) returns (b: Bolt)
    modifies if |conf| > 0 then {conf[0]} else {}
    ensures fresh(b) && fresh(b.router)
    ensures |conf| > 0 ==> b.config == conf[0]
    ensures |conf| == 0 ==> fresh(b.config) && b.config.errorHandler == Some(DefaultErrorHandler) &&
                            b.config.notFoundHandler == Some(DefaultNotFoundHandler) && b.config.mode == Development
    ensures b.config.Filled()
    ensures |conf| > 0 ==> b.config.errorHandler ==
                           if old(conf[0].errorHandler).None? then Some(DefaultErrorHandler) else old(conf[0].errorHandler)
    ensures |conf| > 0 ==> b.config.notFoundHandler ==
                           if old(conf[0].notFoundHandler).None? then Some(DefaultNotFoundHandler) else old(conf[0].notFoundHandler)
    ensures |conf| > 0 ==> b.config.mode == if old(conf[0].mode) == "" then Development else old(conf[0].mode)
    ensures |conf| > 0 && old(conf[0].session) != null ==> b.config.session == old(conf[0].session)
    ensures |conf| > 0 && old(conf[0].websocket) != null ==> b.config.websocket == old(conf[0].websocket)
    ensures b.router.routes == [] && b.router.validators.Keys == DefaultValidatorNames
    ensures b.router.validators["int"] == ValidateInt && b.router.validators["bool"] == ValidateBool
    ensures b.router.validators["alpha"] == ValidateAlpha && b.router.validators["alphanumeric"] == ValidateAlphaNumeric
    ensures b.router.validators["uuid"] == UUIDValidator(uuidParse)
    ensures b.hooks == map[] && b.publicDir == ""
  {
    var c: Config;
    if |conf| > 0 {
      c := conf[0];
    } else {
      c := DefaultConfig();
    }
    c.Check();
    var r := new Router();
    b := new Bolt(c, r);
    var fatal := RegisterDefaultRouteValidators(b.router, uuidParse);
    assert !fatal;
    DefaultsBound(map[], uuidParse);
  }
}
