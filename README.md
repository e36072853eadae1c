# go-bolt routing and dispatch core, in Dafny

This project models the core of the Go web micro-framework go-bolt and proves
properties about it:

- how a path template with `{param}?` optional segments becomes the concrete
  paths that get registered;
- the append-only route table, with its duplicate check, router groups and
  the validator registry;
- the two path matchers:
  - the bolt matcher in `server.go` (one validator name after `@`);
  - the gale matcher in `route.go` (compiled variants, each with a chain of
    validators);
- route selection in registration order, and the dispatch pipeline of
  pre-request hooks, middlewares, handler, error handler and post-request
  hooks;
- the per-request context: parameters, status, buffered headers, store,
  `Accept` negotiation, redirect and body dispatch;
- configuration defaulting, and the mapping from error to HTTP status;
- the in-memory session store with its expiry sweep;
- application assembly and hook registration;
- the arithmetic of the route listing.

The modelled Go code comes from two revisions of go-bolt. The earlier revision
has `router.go`, `server.go`, `ctx.go`, `config.go`, `store.go` and `bolt.go`,
all in package `bolt`. The later revision has `gale.go` and `ws_config.go`,
which are in package `gale`, and `route.go`, which is still in package `bolt`.
`router.go` and `route.go` each declare their own `route`, so they are separate
modules here: `BoltRouter` and `GaleRoute`.

Modules, one per source file plus a few Go library modules:

| module | file | what it holds |
|---|---|---|
| `Wrappers` | `wrappers.dfy` | `Option` and `Result` |
| `GoStrings` | `gostrings.dfy` | the Go `strings` functions the core uses |
| `GoPath` | `gopath.dfy` | Go `path.Clean` and `path.Join` |
| `GoStrconv` | `gostrconv.dfy` | Go `strconv.Atoi` and `ParseBool` |
| `Types` | `types.dfy` | constants and abstract handlers, middlewares and hooks |
| `OptionalRoutes` | `optional_routes.dfy` | `createOptionalRoutes` |
| `BoltRouter` | `router.dfy` | the route table and router groups |
| `RouteValidators` | `route_validators.dfy` | the built-in validators |
| `GaleRoute` | `route.dfy` | the compiled gale route and its matcher |
| `BoltServer` | `server.dfy` | the matcher, route selection and pipeline |
| `Context` | `ctx.dfy` | the request context |
| `BoltConfig` | `config.dfy` | configuration, errors and default handlers |
| `MemStore` | `store.dfy` | the session store |
| `BoltApp`, `GaleApp` | `bolt.dfy`, `gale.dfy` | the two application types |
| `GaleWSConfig` | `ws_config.dfy` | the gale WebSocket configuration |
| `RouteLog` | `utils.dfy` | the route-listing arithmetic |

Go's `os.Exit` and `log.Fatal` are not modelled as a side effect. Instead:

- `Add`, `RegisterRouteParamValidator` and `Hook` return `fatal == true`;
- the matchers return the `Fatal` outcome;
- the dispatcher's trace ends in `ProcessExit`.

Handlers, middlewares and hooks are abstract values. Each has an identity and
the result it returns. The pipeline records what runs as a trace of events.

Where the code and its documentation disagree, the model follows the code:

- A nested group keeps only its own middlewares. It does not inherit its
  parent's.
- When no route matches, the error from the not-found handler goes to
  `http.Error` with status 500. For the default handler the response is
  therefore a 500 reading "Not found", not a 404.
- The duplicate check compares each expanded variant as an exact string, per
  method. `"*"` is a method of its own in that check.
- In `{name@a@b}` the validator part is `a@b`. Gale reads this as one
  validator named `a@b`, and bolt's matcher reads it the same way.
- `MemoryStore.Get` ignores expiry. Only the sweep removes expired entries.
- `ParamInt` returns the default together with a "param not found" error.

## Model

| member | source | states |
|---|---|---|
| `OptionalRoutes.CreateOptionalRoutes` | route.go:188-217 | With no optional marker, the result is exactly the template. With k markers there are 1+k paths, and none of them contains `?`. |
| `OptionalRoutes.MarkersFromShape` | route.go:191-193 | The scanner for `\{[^\}]+\}\?` finds only complete markers: `{`, at least one character other than `}`, then `}?`. |
| `OptionalRoutes.MarkersFromComplete` | route.go:191-193 | The scanner finds no marker only when no match of the expression starts in the rest of the template. |
| `OptionalRoutes.NoQuestionMarkIsItself` | route.go:212-214 | A template without `?` has no marker and registers as itself alone. |
| `OptionalRoutes.TrailingMarker` | route.go:191-193 | `p/{name}?` has exactly one marker, `{name}?`, when p has no `?` and its braces are closed. |
| `OptionalRoutes.FullVariant` | route.go:196-197 | Deleting every `?` from `p/{name}?` gives `p/{name}`. |
| `OptionalRoutes.MarkerIndex` | route.go:200 | The first occurrence of the trailing marker is right after the prefix. |
| `OptionalRoutes.ShortVariant` | route.go:200-208 | Deleting the marker and collapsing `//` leaves `p/`. One trailing `/` is then trimmed, giving p, or `/` when p is empty. |
| `OptionalRoutes.TrailingOptionalSegment` | route.go:188-217 | A template `p/{name}?` registers exactly `[p/{name}, p]`, with `/` standing in for an empty p. |
| `OptionalRoutes.TemplateMarkers` | route.go:191-193 | For any template of fixed chunks and optional parameters `{name_1}?` … `{name_k}?`, the scanner returns exactly those k markers, in template order. The chunks hold no `?` and close their own braces. The names hold no brace, `?` or `/`. |
| `OptionalRoutes.TemplateFullVariant` | route.go:196-197 | Deleting every `?` from such a template gives the full path: every chunk and every `{name}`, in order. |
| `OptionalRoutes.ReplaceFirstMarker` | route.go:200 | Deleting the first occurrence of `{name}?` cuts out the marker of the first segment with that name, and nothing else. |
| `OptionalRoutes.OptionalSegments` | route.go:188-217 | Such a template registers 1+k paths: the full path first, then, for marker i, the template with the first segment named `name_i` cut out, then tidied. |
| `OptionalRoutes.OtherParamsStay` | route.go:195-210 | The first path holds every `{name_j}`. The path for marker i holds the `{name_j}` of every segment other than the one it cuts out. With distinct names, that is every j other than i. |
| `OptionalRoutes.OtherSegmentsStay` | route.go:199-210 | The path for marker i holds `{name_j}` for every segment j other than i, whatever the names. When j shares i's name, i's own copy stays. |
| `GaleRoute.PartOf` | route.go:101-127 | A segment is a parameter exactly when it starts with `{` and ends with `}`. A static part keeps the segment and has no validators. A parameter name contains no `@`. |
| `GaleRoute.PartRoundTrip` | route.go:101-127 | Printing a parsed part gives back the segment: name, `@` and the validators joined by `,`. |
| `GaleRoute.SecondAtStaysInValidator` | route.go:106-114 | `SplitN` at the first `@` always yields two pieces, so `{a@b@c}` has the one validator `b@c`. |
| `GaleRoute.ParsedPath` | route.go:97-101 | There is one part per segment of the trimmed path, and always at least one. |
| `GaleRoute.ParseSegment` | route.go:102-127 | One segment is read into exactly `PartOf(segment)`. |
| `GaleRoute.ParseSegments` | route.go:101-128 | There is one part per segment, in segment order. |
| `GaleRoute.ParsePath` | route.go:97-131 | The segment loop yields exactly `ParsedPath(path)`. |
| `GaleRoute.Route.constructor` | route.go:44-56 | The variants come from `createOptionalRoutes`. `parts` is `len(paths)` empty entries followed by the parsed variants. |
| `GaleRoute.Route.Parse` | route.go:90-95 | Appends the parsed variants to `parts`, in variant order. |
| `GaleRoute.ParseAll` | route.go:91-94 | The variants are parsed in order, giving `ParsedAll(paths)`. |
| `GaleRoute.Route.SetName` | route.go:58-60 | Sets the name and nothing else. |
| `GaleRoute.CompareFromMatched` | route.go:160-185 | From part i on, a variant matches exactly when every static part equals its path part and every validator chain succeeds. |
| `GaleRoute.CompareSingleMatched` | route.go:153-186 | A variant matches exactly when every part accepts its path part. |
| `GaleRoute.RunChain` | route.go:168-181 | A chain stops as missing only at a name that is in the chain and not in the registry. |
| `GaleRoute.CompareFromFacts` | route.go:160-185 | From part i on, a match binds the earlier names plus the parameter names of the remaining parts. Names no remaining part binds keep their earlier values. A `Fatal` outcome comes from a part whose chain names an unregistered validator. Every part before it accepts, and the reason is "Validator not found: " followed by that name. |
| `GaleRoute.CompareFromValues` | route.go:166-182 | On a match, a name that no later part rebinds holds the final output of its own part's validator chain. |
| `GaleRoute.CompareSingleFacts` | route.go:153-186 | A match binds exactly the variant's parameter names. Each name no later part rebinds holds its chain's final output. `Fatal` names the first missing validator of a part that is reached with all earlier parts accepting. |
| `GaleRoute.StaticVariant` | route.go:160-164 | A variant with only static parts matches exactly the equal path parts, with no parameters. |
| `GaleRoute.Route.CompareSinglePath` | route.go:153-186 | The nested part and validator loops compute `CompareSingle`. Validators run in order, each on the previous output. A missing validator is `Fatal`. |
| `GaleRoute.FirstMatchIsFirst` | route.go:133-151 | No match exactly when no variant of the request's length matches. Otherwise the outcome is that of some variant of that length, and every such variant before it did not match. |
| `GaleRoute.EmptyVariantsSkipped` | route.go:133-151 | The pre-sized empty entries never match, because a split request path has at least one part. |
| `GaleRoute.Route.ComparePath` | route.go:133-151 | Trims and splits the request path, then computes `FirstMatch` over the compiled variants. |
| `GaleRoute.OptionalTemplateParts` | route.go:44-56 | `/seg/{name}?` compiles to two empty entries, then `[seg, {name}]`, then `[seg]`. |
| `GaleRoute.OptionalParamMatches` | route.go:133-186 | Under that route, `/seg/value` binds name to value, and `/seg` matches with no parameters. |
| `BoltRouter.RegisterAppends` | router.go:79-91 | A successful registration appends one entry per path, in order, all sharing method, handler and middlewares. |
| `BoltRouter.RegisterFails` | router.go:78-102 | Registration fails exactly when some path is already registered for the method, or repeats an earlier path of the same call. |
| `BoltRouter.SameTemplateTwiceFails` | router.go:79-83 | Adding the same template twice under the same method terminates. |
| `BoltRouter.AnyIsItsOwnMethod` | router.go:128-130 | A path registered under `*` does not block the same path under GET, and a path registered under GET does not block it under `*`. |
| `BoltRouter.Router.constructor` | router.go:71-76 | The table and the registry start empty. |
| `BoltRouter.Router.RouteExists` | router.go:94-102 | True exactly when some entry has this method and this raw path. |
| `BoltRouter.Router.Add` | router.go:78-92 | Terminates exactly when `Register` fails. Otherwise the table is `Register`'s result. The old table always stays a prefix, so the exported table is append-only and in registration order. |
| `BoltRouter.Router.Get` | router.go:104-126 | Each method wrapper is `Add` with its method. |
| `BoltRouter.Router.All` | router.go:128-130 | Registers under `*`. |
| `BoltRouter.Router.WS` | router.go:132-134 | Registers as GET. |
| `BoltRouter.Router.Group` | router.go:136-142 | A new group on this router, with the given prefix and middlewares. |
| `BoltRouter.Router.RegisterRouteParamValidator` | router.go:144-151 | Terminates exactly when the name is taken. Otherwise the validator is inserted, and nothing else changes. |
| `BoltRouter.Router.GetValidator` | router.go:153-159 | An error exactly when the name is absent, reading "validator 'name' does not exists". Otherwise the registered function. |
| `BoltRouter.RouterGroup.Add` | router.go:171-173 | Registers `path.Join(prefix, p)` with the group's middlewares followed by the route's. |
| `BoltRouter.RouterGroup.Get` | router.go:175-205 | Each group wrapper is the group's `Add` with its method. |
| `BoltRouter.RouterGroup.Group` | router.go:207-213 | The prefixes are joined, and the new group has only its own middlewares. |
| `BoltRouter.GroupRouteEntry` | router.go:171-173 | A group route without markers adds exactly one entry, with the joined path and the concatenated middlewares. |
| `GoPath.JoinPath` | router.go:172 | The joined prefix is empty only for two empty inputs. It has no `//` and no trailing `/` except the root, and it is rooted when the prefix is. |
| `GoPath.FoldAppend` | router.go:172 | Cleaning walks the elements of two lists as it walks their concatenation. |
| `GoPath.FoldPlain` | router.go:172 | Elements other than "", "." and ".." are kept in order, rooted or not. |
| `GoPath.FoldNormal` | router.go:172 | A relative stack whose ".." elements all come first survives the walk unchanged. |
| `GoPath.FoldShape` | router.go:172 | The walk leaves no ".." in a rooted path, and leaves every ".." of a relative path at its front. |
| `GoPath.JoinPlainPaths` | router.go:172 | Joining the rooted prefix `/x1/…/xm` with `y1/…/yn` or `/y1/…/yn` (plain elements) gives `/x1/…/xm/y1/…/yn`, and gives `/` when both lists are empty. |
| `GoPath.JoinPathConcat` | router.go:172 | A non-empty rooted prefix `a` and a non-empty plain route path `b` join as `a + "/" + b`, whether or not `b` starts with `/`. |
| `GoPath.JoinPathExample` | router.go:172 | The group `/api` registers `users` and `/users` at `/api/users`. The root group `/` registers `/users` at `/users`. |
| `GoPath.CleanIdempotent` | router.go:207-213 | Cleaning a cleaned path changes nothing, so a nested group's prefix is already in clean form. |
| `RouteValidators.ValidateInt` | route_validators.go:19-25 | Accepted exactly for an optional sign and digits whose value fits in 64 bits. The output is then the input; otherwise it is `""` with an error. |
| `GoStrconv.AtoiCorrect` | route_validators.go:19-25 | `Atoi` succeeds exactly on decimal syntax within the int64 range, with that value. A syntax error gives 0. A range error gives the int64 bound on the side of the sign. Decimal syntax out of range is always a range error. |
| `GoStrconv.ParseUintOverflowFirst` | route_validators.go:20 | Digits whose value passes 2^64 - 1 give a range error whatever follows them. |
| `GoStrconv.AtoiRangeBeforeSyntax` | route_validators.go:20 | `"100000000000000000000x"` is a range error with value MaxInt64, and with a leading `-` it gives MinInt64. It is not a syntax error. |
| `RouteValidators.ValidateBool` | route_validators.go:27-33 | Accepted exactly for the twelve `ParseBool` spellings. The output is then the input; otherwise `""`. |
| `GoStrconv.ParseBool` | route_validators.go:27-33 | Some exactly for the twelve spellings, and true for the six true ones. |
| `RouteValidators.ValidateUUIDv4` | route_validators.go:35-41 | The error is exactly `uuid.Parse`'s. The output is the input on success, `""` otherwise. |
| `RouteValidators.ValidateAlpha` | route_validators.go:43-49 | Accepted exactly for non-empty strings of ASCII letters. The output is the input; otherwise `""` with "param is not alpha". |
| `RouteValidators.ValidateAlphaNumeric` | route_validators.go:51-57 | Accepted exactly for non-empty strings of ASCII letters and digits. The output is the input; otherwise `""` with "param is not alphanumeric". |
| `RouteValidators.ClassRunFrom` | route_validators.go:43-57 | The character-class scan holds exactly when every remaining character is in the class. |
| `RouteValidators.RegisterDefaultRouteValidators` | route_validators.go:11-17 | Terminates exactly when one of the five names is taken. Otherwise the registry becomes `WithDefaults` of the old one. Routes are unchanged. |
| `RouteValidators.WithDefaults` | route_validators.go:11-17 | The registry gains exactly the five default names, and every other name keeps its validator. |
| `RouteValidators.DefaultsBound` | route_validators.go:12-16 | Each default name is bound to its own validator. |
| `RouteValidators.DefaultTakenShares` | route_validators.go:11-17 | The fatal condition holds exactly when the registry already has one of the five default names. |
| `RouteValidators.UUIDValidator` | route_validators.go:35-41 | The stored `uuid` validator is `validateUUIDv4` with the parser fixed. |
| `BoltServer.ParamKeysHold` | server.go:68-92 | Every parameter segment's name is among the bound names. |
| `BoltServer.CompareFacts` | server.go:59-100 | On a match, static segments equal their path parts, and the bound names are those of the parameter segments. A `Fatal` outcome names an unregistered validator. |
| `BoltServer.CompareValues` | server.go:69-91 | On a match, a name that no later segment rebinds holds its own segment's value. For `{name@v}` that is validator v's output. |
| `BoltServer.BoltCompareFacts` | server.go:51-101 | Trimmed paths that are equal match with no parameters, even when the route has `{...}` segments. Different segment counts give no match. |
| `BoltServer.ComparePath` | server.go:51-101 | The segment loop computes `BoltCompare`. |
| `BoltServer.CompareSegments` | server.go:66-100 | The segment loop computes `CompareParts` from the first segment, with nothing bound. |
| `BoltServer.CompareSegment` | server.go:69-97 | One iteration computes `SegmentStep`. A static segment must equal its path part. A parameter binds its name to the path part, or to validator v's output for `{name@v}`. A validator error is no match, and an unregistered v terminates. |
| `BoltServer.ValidatedSegment` | server.go:73-91 | For `{name@v}`, an unregistered v terminates with `getValidator`'s error, a validator error means no match, and otherwise name holds v's output. |
| `BoltServer.Outcomes` | server.go:34-37 | A route's outcome is its comparison when its method is the request's or `*`, and no match otherwise. |
| `BoltServer.DecideFacts` | server.go:34-43 | The first outcome that is not NoMatch decides. Not found exactly when every outcome is NoMatch. |
| `BoltServer.SelectFacts` | server.go:34-43 | The selected route is eligible and matches, and every earlier route is ineligible or does not match. |
| `BoltServer.TryRouteEligible` | server.go:35 | A decisive outcome comes from an eligible route's comparison. |
| `BoltServer.RouteOutcome` | server.go:35-37 | One iteration of the route loop computes `TryRoute`. |
| `BoltServer.FindRoute` | server.go:34-43 | The route loop computes `Select`, the first decisive outcome in registration order. |
| `BoltServer.PreEvents` | server.go:106-108 | One event per pre-request hook, in order. |
| `BoltServer.PostEvents` | server.go:110-114 | One event per post-request hook, in order. |
| `BoltServer.ChainFacts` | server.go:116-131 | The handler runs exactly when every middleware returned `(true, nil)`. The error handler runs at most once, as the last event. The middlewares that run form a prefix of the list, in order. |
| `BoltServer.ChainStops` | server.go:116-126 | When middleware j is the first that does not return `(true, nil)`, middlewares 0..j run and nothing more. The error handler then gets j's error, if j returned one. When j returned `ok == false` with no error, nothing else runs. |
| `BoltServer.ChainCompletes` | server.go:116-131 | When every middleware returns `(true, nil)`, all of them run in order and then the handler. The error handler then gets the handler's error exactly when the handler returned one. |
| `BoltServer.ChainExit` | server.go:116-131 | Either every middleware passes, or some middleware is the first to stop the chain. |
| `BoltServer.HooksFramePipeline` | server.go:103-132 | Pre-request hooks come first, in order. Post-request hooks come last, in order, exactly once, however the chain ended. |
| `BoltServer.HandleRoute` | server.go:103-132 | The loops produce exactly `Pipeline(pre, post, middlewares, handler)`. |
| `BoltServer.ServeHTTP` | server.go:16-49 | The selection is `Select` over the exported routes. The trace is the selected route's pipeline, or the not-found handler plus `http.Error` with 500, or the process exit. |
| `BoltServer.DefaultNotFoundIs500` | server.go:45-48 | With the default not-found handler, an unmatched request yields a 500 reading "Not found". |
| `Context.HeaderValue` | ctx.go:511-513 | The first value under the key, or `""`. |
| `Context.AddHeader` | ctx.go:507-509 | Appends the value after that key's earlier values, and leaves other keys alone. |
| `Context.AddHeaderKeepsOrder` | ctx.go:507-509 | Two adds keep both values, in order. |
| `Context.NegotiatedUnique` | ctx.go:364-378 | At most one format satisfies the negotiation rule. |
| `Context.FirstAllowed` | ctx.go:370-377 | The first untrimmed `,` entry found in the allowed list, or the default when no entry is found there. |
| `Context.NegotiatedFormat` | ctx.go:364-378 | Satisfies the negotiation rule and is one of the allowed formats. |
| `Context.AcceptEntriesUntrimmed` | ctx.go:370-373 | `" text/html"` is not recognised, so the default JSON is used. |
| `Context.Ctx.constructor` | ctx.go:151-162 | Status 200, no buffered headers, an empty store, nothing written. |
| `Context.Ctx.Param` | ctx.go:196-205 | The stored value, else the first default, else `""`. |
| `Context.Ctx.ParamInt` | ctx.go:207-217 | A missing parameter gives the default (or 0) with "param not found". A present one gives Atoi's result, succeeding exactly on int64 decimal syntax. On failure it gives either 0 with strconv's syntax error, or the int64 bound on the sign's side with strconv's range error. The range case always applies to out-of-range decimal syntax. |
| `Context.Ctx.Status` | ctx.go:230-233 | Sets the status only. |
| `Context.Ctx.HeaderAdd` | ctx.go:507-509 | The buffered headers become `AddHeader(old, key, value)`. |
| `Context.Ctx.ContentType` | ctx.go:225-228 | Adds a `Content-Type` value. |
| `Context.Ctx.Get` | ctx.go:330-332 | The stored value exactly when the key is present. |
| `Context.Ctx.Set` | ctx.go:334-336 | Stores the value under the key. |
| `Context.Ctx.WriteHeaders` | ctx.go:354-362 | The buffered headers and the status are written. |
| `Context.Ctx.Send` | ctx.go:235-243 | Headers, then the body, with no error. |
| `Context.Ctx.Json` | ctx.go:245-252 | An encoding error is returned with nothing sent. Otherwise the encoding is sent as `application/json`. |
| `Context.Ctx.Xml` | ctx.go:254-261 | The same, for `application/xml`. |
| `Context.Ctx.GetHeaderAllowedFormat` | ctx.go:364-378 | The result satisfies the negotiation rule for the request's `Accept` header. |
| `Context.Ctx.Format` | ctx.go:287-313 | Follows the negotiated format, JSON by default. Text sends the text with no content type. HTML sends `<p>text</p>` as `text/html`. JSON and XML encode. |
| `Context.Ctx.Redirect` | ctx.go:315-322 | The status becomes 307 unless it is already 307 or 308. A `Location` header is added, the headers are written, and there is no error. |
| `Context.Ctx.ParseForm` | ctx.go:525-527 | Always a 501 "Not implemented" `*Error`. |
| `Context.Ctx.Parse` | ctx.go:533-544 | JSON and XML go to their decoders, form gives 501, anything else gives a 422 "Unprocessable Entity". |
| `Types.NewError` | config.go:114-123 | The error carries the status and reads back as the message. |
| `BoltConfig.StatusErrorOf` | config.go:128-131 | `errors.As` finds the `*Error` along the wrap chain. A plain error has none. |
| `BoltConfig.ErrorStatus` | config.go:125-131 | The status of the `*Error` when there is one, else 500. |
| `BoltConfig.NewErrorStatus` | config.go:114-131 | A `NewError` is answered with its own status and message. |
| `BoltConfig.DefaultNotFound` | config.go:137-139 | Always a 404 `*Error` reading "Not found". |
| `BoltConfig.NotFoundResult` | config.go:137-139 | The default handler's error, or the custom handler's own. |
| `BoltConfig.RunDefaultErrorHandler` | config.go:125-135 | Sets the status to `ErrorStatus(err)`, then formats `{"error": err.Error()}` in the negotiated format. |
| `BoltConfig.Config.Check` | config.go:63-83 | Fills only the unset fields: handlers, development mode, WebSocket and session. A caller's session is left unchanged and unchecked. Afterwards everything is filled, and on a filled config nothing changes. |
| `BoltConfig.SessionConfig.Check` | config.go:85-97 | Sets the token function, a new memory store and a 12-hour expiry, each only where nil or zero. |
| `BoltConfig.DefaultConfig` | config.go:99-107 | All defaults, so `Check` leaves it as it is. |
| `BoltConfig.DefaultWSConfig` | config.go:141-145 | A 10-second timeout. |
| `BoltConfig.DefaultSessionConfig` | config.go:147-154 | Enabled, 12-hour tokens, the default token function and a new empty memory store. |
| `MemStore.Swept` | store.go:95-101 | Keeps exactly the entries that have no expiry, or an expiry not before now. |
| `MemStore.SweepProperties` | store.go:95-101 | Entries without expiry survive. Sweeping twice at the same instant changes nothing, and a sweep followed by a later one equals the later one. |
| `MemStore.MemoryStore.Get` | store.go:43-51 | The stored bytes exactly when the key is present, whatever the expiry. Otherwise "key not found". |
| `MemStore.MemoryStore.Exists` | store.go:53-59 | True exactly when `Get` succeeds. |
| `MemStore.MemoryStore.Set` | store.go:61-67 | Stores the bytes with no expiry, so `Get` returns them. Other keys are unchanged. |
| `MemStore.MemoryStore.SetEx` | store.go:69-76 | Stores the bytes expiring at now + d. |
| `MemStore.MemoryStore.Del` | store.go:78-84 | Removes the key and returns nil, whether or not it was present. |
| `MemStore.MemoryStore.Sweep` | store.go:95-101 | The loop leaves exactly `Swept(old data, now)`. |
| `BoltApp.AppendHooks` | bolt.go:70 | That kind's list grows at its end in argument order, and other kinds are unchanged. |
| `BoltApp.Bolt.Hook` | bolt.go:65-71 | Terminates exactly when no function is given. Otherwise the functions are appended to that kind only. |
| `BoltApp.New` | bolt.go:26-46 | Uses the first config or the default, checked. The caller's set error handler, not-found handler, mode, session and websocket configs are kept, and only unset ones get defaults. The router is empty, there are no hooks and no public directory, and the five validators are registered under their names. |
| `GaleApp.Gale.Hook` | gale.go:65-71 | Terminates exactly when no function is given. Otherwise the functions are appended to that kind only. |
| `GaleApp.New` | gale.go:26-46 | The same assembly as bolt's. The caller's set config fields are kept, only unset ones get defaults, and `int`, `bool`, `alpha`, `alphanumeric` and `uuid` are bound to their validators. |
| `GaleApp.Gale.Config` | gale.go:79-81 | The stored configuration. |
| `GaleApp.Gale.Router` | gale.go:84-86 | The embedded router. |
| `GaleWSConfig.WSConfig.Check` | ws_config.go:15-31 | Zero fields get 10 s, 100, 10 and 10, and other fields, negative ones included, keep their values. Afterwards no field is zero, so a second check changes nothing. |
| `GaleWSConfig.DefaultWSConfig` | ws_config.go:33-40 | Every field holds its default. |
| `GaleWSConfig.DefaultIsCheckedZero` | ws_config.go:15-40 | `check` on a zero config gives `defaultWSConfig()`. |
| `RouteLog.MethodSpaces` | utils.go:27-36 | The method is unchanged. The pad is never negative, and length plus pad equals max(6, length). |
| `RouteLog.DisplayName` | utils.go:64-67 | An empty name is shown as "unnamed". |
| `RouteLog.DotsWidth` | utils.go:69-74 | Never below 5. |
| `RouteLog.LineFillsTerminal` | utils.go:69-78 | The printed line is exactly as wide as the terminal whenever that leaves room for 5 dots, and wider otherwise. |

## Left out

- HTTP and file I/O are not modelled:
  - the public-directory branch of `ServeHTTP`;
  - `PublicDir`, `SendFile`, `Pipe`, `Serve` and `ServeTLS`;
  - the response writer's own errors.

  Writes are appended to `Ctx.writes`, and `http.Error` is a trace event.
- JSON and XML encoding and decoding, multipart parsing and `uuid.Parse` are
  parameters (`Encoders`, the decoder functions and `uuidParse`).
- Sessions, cookies, `defaultTokenFunc`, WebSocket code, the developer UI,
  logging and colours are not modelled.
- `Context.Ctx.Format`: `fmt`'s `%v` rendering is not modelled. A value
  carries its own rendering, and only the error map renders as
  `map[error:...]`.
- `Context.HeaderValue`: request header keys are taken as already canonical.
  `http.CanonicalHeaderKey` is not modelled.
- `MemStore.MemoryStore.Sweep`: the lock and the 30-second ticker are not
  modelled. A single `now` is passed in, whereas the Go code reads the clock
  once per entry.
- `BoltConfig.Config.Check`: the `Views` field is not modelled; `check` never
  touches it.
- `Context.Ctx.Send`: always returns nil. The error from the response writer's `Write` is not modelled.
- `BoltServer.ServeHTTP`: the public-directory branch, which serves a static file before any route is tried, is not
  modelled, because it needs `os.Stat` and the file system.
- `BoltServer.ServeHTTP`: requires a non-nil not-found handler. Calling a nil
  one would panic in Go, and `New` always sets it. A nil error handler is not
  modelled; the trace records each call to it as `ErrorHandled`.
- `BoltServer.HandleRoute`: the context passed to hooks and handlers is not
  built, because abstract handlers do not read it. A panic inside a handler,
  which would still run the deferred post-request hooks, is not modelled.
- `BoltRouter.RouterGroup.Add`: `append(r.middlewares, ...)` can share a
  backing array between routes when the group's slice has spare capacity.
  Slices are values here, so that aliasing is not modelled.
- `RouteLog.DotsWidth`: lengths are counted in characters, while Go counts
  bytes; they agree for ASCII methods, paths and names.
- Gale's own `router.go`, `config.go` and `server.go` are not part of this
  model. The gale application reuses the bolt `Router` and `Config`.
- The escaping that `strconv` applies when it quotes its input in error
  messages is not modelled.
- `GaleRoute.Route.GetName` and `BoltRouter.Router.ExportRoutes` are plain
  field reads with no contract of their own.
- `OptionalRoutes.TemplateMarkers`, `OptionalRoutes.OptionalSegments` and the
  lemmas built on them cover templates of a particular shape. The fixed chunks
  hold no `?` and close every `{` they open. The parameter names are non-empty
  and hold no brace, `?` or `/`. `CreateOptionalRoutes` computes every other
  template too, such as `{a}b}?`, but these lemmas say nothing about them.
- `OptionalRoutes.OtherParamsStay` and `OptionalRoutes.OtherSegmentsStay`
  state presence with `HasParam`. For the path of marker i, that is some
  occurrence of `{name}`, not the position of each segment.
