/**
 * The shapes the framework passes around (types.go), the error values of Go's
 * `error` interface with config.go's status-carrying *Error, and the outcome of
 * comparing a request path against a route.
 *
 * Handlers, middlewares and hooks are Go closures over the request context. The
 * model keeps only what the dispatch pipeline observes of them: an identity (so
 * that a trace can say which one ran) and the value each returns.
 */
module Types {
  import opened Wrappers

  const ContentTypeJSON := "application/json"
  const ContentTypeText := "text/plain"
  const ContentTypeHTML := "text/html"
  const ContentTypeXML := "application/xml"
  const ContentTypeForm := "application/x-www-form-urlencoded"
  const ContentTypeMultipart := "multipart/form-data"

  const StatusOK := 200
  const StatusTemporaryRedirect := 307
  const StatusPermanentRedirect := 308
  const StatusNotFound := 404
  const StatusUnprocessableEntity := 422
  const StatusInternalServerError := 500
  const StatusNotImplemented := 501

  /** BoltHook / GaleHook: when a hook runs. */
  datatype HookKind = PreRequestHook | PostRequestHook

  /**
   * A Go error: a plain error (errors.New, library errors), the framework's
   * *Error, which carries an HTTP status, or an error wrapping another one
   * (fmt.Errorf with %w), with its own message.
   */
  datatype Error = Plain(msg: string) | StatusError(status: int, msg: string) | Wrapped(msg: string, inner: Error) {
    /** err.Error() */
    function Message(): string {
      msg
    }
  }

  /** NewError (config.go): an error that carries `statusCode` and reads back as `message`. */
  function NewError(statusCode: int, message: string): (e: Error)
    ensures e.Message() == message
    ensures e.StatusError? && e.status == statusCode
  {
    StatusError(statusCode, message)
  }

  /** A HandlerFunc, by what it returns. */
  datatype Handler = Handler(id: nat, err: Option<Error>)

  /** A MiddlewareFunc, by the (bool, error) pair it returns. */
  datatype Middleware = Middleware(id: nat, ok: bool, err: Option<Error>)

  /** A bolt hook, func(c Ctx): it returns nothing. */
  datatype Hook = Hook(id: nat)

  /** A gale hook, func(c Ctx) error. */
  datatype GaleHook = GaleHook(id: nat, err: Option<Error>)

  /** The (string, error) pair a RouteParamValidatorFunc returns. */
  datatype Checked = Checked(value: string, err: Option<Error>)

  /** RouteParamValidatorFunc: checks and possibly rewrites a path value. */
  type Validator = string -> Checked

  /**
   * The outcome of comparing a request path with a route: no match, a match with
   * the extracted parameters, or a configuration error that makes the Go code
   * terminate the process (log.Fatal / os.Exit).
   */
  datatype Match = NoMatch | Matched(params: map<string, string>) | Fatal(reason: string)
}
