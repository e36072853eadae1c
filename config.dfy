/**
 * Application configuration (config.go): the defaults the app falls back on,
 * how `check` fills in what the caller left unset, the status-carrying error,
 * and the default error and not-found handlers.
 *
 * Durations are integer nanoseconds, as Go's time.Duration. Configured
 * handlers and session pieces are closures or interface values; the model
 * keeps which one is set (the default or a caller's own), and for the session
 * store the MemoryStore object itself.
 */
module BoltConfig {
  import opened Wrappers
  import opened Types
  import opened Context
  import opened MemStore

  /** The application modes. */
  const Production := "production"
  const Development := "development"

  /** time.Second and time.Hour in nanoseconds. */
  const Second := 1_000_000_000
  const Hour := 3600 * Second

  /** Config.ErrorHandler: unset (Go's nil) is Option.None. */
  datatype ErrorHandlerFn = DefaultErrorHandler | CustomErrorHandler(id: nat)

  /** Config.NotFoundHandler, by the error it returns. */
  datatype NotFoundFn = DefaultNotFoundHandler | CustomNotFoundHandler(id: nat, err: Option<Error>)

  /** SessionConfig.TokenFunc. */
  datatype TokenFn = DefaultTokenFunc | CustomTokenFunc(id: nat)

  /** SessionConfig.Store: the built-in in-memory store or one of the caller's. */
  datatype SessionStore = MemStoreRef(store: MemoryStore) | CustomStore(id: nat)

  /** The bolt WebSocket configuration. */
  class WSConfig {
    var timeout: int

    constructor (timeout: int)
      ensures this.timeout == timeout
    {
      this.timeout := timeout;
    }
  }

  /** defaultWSConfig: a ten-second timeout. */
  method DefaultWSConfig() returns (w: WSConfig)
    ensures fresh(w) && w.timeout == 10 * Second
  {
    w := new WSConfig(10 * Second);
  }

  class SessionConfig {
    var enabled: bool
    var tokenFunc: Option<TokenFn>
    var tokenExpire: int
    var store: Option<SessionStore>

    constructor (enabled: bool, tokenFunc: Option<TokenFn>, tokenExpire: int, store: Option<SessionStore>)
      ensures this.enabled == enabled && this.tokenFunc == tokenFunc
      ensures this.tokenExpire == tokenExpire && this.store == store
    {
      this.enabled := enabled;
      this.tokenFunc := tokenFunc;
      this.tokenExpire := tokenExpire;
      this.store := store;
    }

    /** Every field check fills is set. */
    predicate Complete()
      reads this
    {
      tokenFunc.Some? && store.Some? && tokenExpire != 0
    }

    /**
     * SessionConfig.check: the default token function, a new in-memory store
     * and a twelve-hour expiry, each only where the field is nil or zero.
     * `enabled` is never touched.
     */
    method Check()
      modifies this
      ensures tokenFunc == if old(tokenFunc).None? then Some(DefaultTokenFunc) else old(tokenFunc)
      ensures old(store).Some? ==> store == old(store)
      ensures old(store).None? ==>
                store.Some? && store.value.MemStoreRef? && fresh(store.value.store) && store.value.store.data == map[]
      ensures tokenExpire == if old(tokenExpire) == 0 then 12 * Hour else old(tokenExpire)
      ensures enabled == old(enabled)
      ensures Complete()
      ensures old(Complete()) ==> tokenFunc == old(tokenFunc) && store == old(store) && tokenExpire == old(tokenExpire)
    {
      if tokenFunc.None? {
        tokenFunc := Some(DefaultTokenFunc);
      }
      if store.None? {
        var m := new MemoryStore();
        store := Some(MemStoreRef(m));
      }
      if tokenExpire == 0 {
        tokenExpire := 12 * Hour;
      }
    }
  }

  /** defaultSessionConfig: enabled, twelve-hour tokens, the default token function, a new in-memory store. */
  method DefaultSessionConfig() returns (s: SessionConfig)
    ensures fresh(s)
    ensures s.enabled && s.tokenExpire == 12 * Hour && s.tokenFunc == Some(DefaultTokenFunc)
    ensures s.store.Some? && s.store.value.MemStoreRef? && fresh(s.store.value.store) && s.store.value.store.data == map[]
    ensures s.Complete()
  {
    var m := new MemoryStore();
    s := new SessionConfig(true, Some(DefaultTokenFunc), 12 * Hour, Some(MemStoreRef(m)));
  }

  /** The application configuration; the unset pointer fields are null. */
  class Config {
    var errorHandler: Option<ErrorHandlerFn>
    var notFoundHandler: Option<NotFoundFn>
    var mode: string
    var session: SessionConfig?
    var websocket: WSConfig?

    constructor (errorHandler: Option<ErrorHandlerFn>, notFoundHandler: Option<NotFoundFn>, mode: string,
                 session: SessionConfig?, websocket: WSConfig?)
      ensures this.errorHandler == errorHandler && this.notFoundHandler == notFoundHandler && this.mode == mode
      ensures this.session == session && this.websocket == websocket
    {
      this.errorHandler := errorHandler;
      this.notFoundHandler := notFoundHandler;
      this.mode := mode;
      this.session := session;
      this.websocket := websocket;
    }

    /** Every field Config.check fills is set. */
    predicate Filled()
      reads this
    {
      errorHandler.Some? && notFoundHandler.Some? && mode != "" && session != null && websocket != null
    }

    /**
     * Config.check: the default error and not-found handlers, development
     * mode, a default WebSocket and a default session configuration, each only
     * where the field is unset. A session configuration the caller supplied is
     * kept as it is: its own check is not run, so its nil fields stay nil.
     */
    method Check()
      modifies this
      ensures errorHandler == if old(errorHandler).None? then Some(DefaultErrorHandler) else old(errorHandler)
      ensures notFoundHandler == if old(notFoundHandler).None? then Some(DefaultNotFoundHandler) else old(notFoundHandler)
      ensures mode == if old(mode) == "" then Development else old(mode)
      ensures old(websocket) != null ==> websocket == old(websocket)
      ensures old(websocket) == null ==> websocket != null && fresh(websocket) && websocket.timeout == 10 * Second
      ensures old(session) != null ==> session == old(session) && unchanged(old(session))
      ensures old(session) == null ==> session != null && fresh(session) && session.enabled && session.Complete() &&
                                       session.tokenExpire == 12 * Hour && session.tokenFunc == Some(DefaultTokenFunc)
      ensures Filled()
      ensures old(Filled()) ==> errorHandler == old(errorHandler) && notFoundHandler == old(notFoundHandler) &&
                                mode == old(mode) && session == old(session) && websocket == old(websocket)
    {
      if errorHandler.None? {
        errorHandler := Some(DefaultErrorHandler);
      }
      if notFoundHandler.None? {
        notFoundHandler := Some(DefaultNotFoundHandler);
      }
      if mode == "" {
        mode := Development;
      }
      if websocket == null {
        websocket := DefaultWSConfig();
      }
      if session == null {
        session := DefaultSessionConfig();
      }
    }
  }

  /** defaultConfig: every field set to its default, so that check has nothing left to fill. */
  method DefaultConfig() returns (c: Config)
    ensures fresh(c) && c.Filled()
    ensures c.errorHandler == Some(DefaultErrorHandler) && c.notFoundHandler == Some(DefaultNotFoundHandler)
    ensures c.mode == Development
    ensures c.websocket != null && fresh(c.websocket) && c.websocket.timeout == 10 * Second
    ensures c.session != null && fresh(c.session) && c.session.enabled && c.session.Complete()
  {
    var w := DefaultWSConfig();
    var s := DefaultSessionConfig();
    c := new Config(Some(DefaultErrorHandler), Some(DefaultNotFoundHandler), Development, s, w);
  }

  /** The *Error errors.As finds along the wrap chain, if any. */
  function StatusErrorOf(e: Error): (r: Option<Error>)
    ensures r.Some? ==> r.value.StatusError?
    ensures e.StatusError? ==> r == Some(e)
    ensures e.Plain? ==> r.None?
  {
    match e
    case Plain(_) => None
    case StatusError(_, _) => Some(e)
    case Wrapped(_, inner) => StatusErrorOf(inner)
  }

  /** The status defaultErrorHandler answers with: the *Error's status when there is one, else 500. */
  function ErrorStatus(e: Error): (code: int)
    ensures StatusErrorOf(e).Some? ==> code == StatusErrorOf(e).value.status
    ensures StatusErrorOf(e).None? ==> code == StatusInternalServerError
  {
    match StatusErrorOf(e)
    case Some(s) => s.status
    case None => StatusInternalServerError
  }

  /** Wrapping an error keeps the status the default error handler chooses. */
  lemma {:induction false} WrappingKeepsStatus(msg: string, e: Error)
    ensures ErrorStatus(Wrapped(msg, e)) == ErrorStatus(e)
  {
  }

  /** NewError's errors are answered with their own status and read back as their message. */
  lemma NewErrorStatus(code: int, message: string)
    ensures ErrorStatus(NewError(code, message)) == code
    ensures NewError(code, message).Message() == message
  {
  }

  /** defaultNotFoundHandler: always a 404 *Error reading "Not found". */
  function DefaultNotFound(): (e: Error)
    ensures e.StatusError? && e.status == StatusNotFound && e.Message() == "Not found"
    ensures ErrorStatus(e) == StatusNotFound
  {
    NewError(StatusNotFound, "Not found")
  }

  /** What a not-found handler returns. */
  function NotFoundResult(fn: NotFoundFn): (r: Option<Error>)
    ensures fn.DefaultNotFoundHandler? ==> r == Some(DefaultNotFound())
    ensures fn.CustomNotFoundHandler? ==> r == fn.err
  {
    match fn
    case DefaultNotFoundHandler => Some(DefaultNotFound())
    case CustomNotFoundHandler(_, err) => err
  }

  /**
   * defaultErrorHandler: the status chosen by ErrorStatus, then the map
   * {"error": err.Error()} in the negotiated format.
   */
  method RunDefaultErrorHandler(c: Ctx, enc: Encoders, err: Error) returns (res: Option<Error>)
    modifies c
    ensures c.statusCode == ErrorStatus(err)
    ensures c.store == old(c.store)
    ensures Formatted(NegotiatedFormat(c.request), enc, ErrorMap(err.Message()), ErrorStatus(err),
                      old(c.headers), old(c.writes), c.headers, c.writes, res)
  {
    c.Status(ErrorStatus(err));
    res := c.Format(enc, ErrorMap(err.Message()));
  }
}
