/**
 * The per-request context (ctx.go): route parameters, the response status, the
 * buffered response headers, the per-request store, content negotiation on the
 * Accept header, and dispatch of the request body on its Content-Type.
 *
 * What reaches the http.ResponseWriter is recorded in `writes`: a status line
 * with the headers sent with it, and body writes. JSON and XML encoding and
 * decoding are library code that is not modelled; they are parameters.
 */
module Context {
  import opened Wrappers
  import opened Types
  import opened GoStrings
  import opened GoStrconv
  import opened BoltRouter

  /** The parts of an *http.Request the context reads. Header keys are taken as already canonical. */
  datatype Request = Request(httpMethod: string, path: string, header: map<string, seq<string>>, body: string)

  /** http.Header.Get: the first value stored under the key, or "". */
  function HeaderValue(h: map<string, seq<string>>, key: string): (v: string)
    ensures key in h && |h[key]| > 0 ==> v == h[key][0]
    ensures !(key in h && |h[key]| > 0) ==> v == ""
  {
    if key in h && |h[key]| > 0 then h[key][0] else ""
  }

  /** A value passed to Format, JSON or XML (Go's `any`), with how fmt's %v renders it. */
  datatype Data =
    | StringData(s: string)
    | BytesData(b: string)
    | ErrorMap(message: string)
    | OtherData(rendered: string)
  {
    /** The text Format sends for the plain-text and HTML formats. */
    function Text(): string {
      match this
      case StringData(s) => s
      case BytesData(b) => b
      case ErrorMap(m) => "map[error:" + m + "]"
      case OtherData(r) => r
    }
  }

  /** json.Marshal and xml.Marshal, as opaque parameters. */
  datatype Encoders = Encoders(json: Data -> Result<string, Error>, xml: Data -> Result<string, Error>)

  /** What reaches the response writer. */
  datatype Write = WriteHeader(status: int, headers: map<string, seq<string>>) | WriteBody(body: string)

  /** The values buffered under a header key, none when the key is absent. */
  function Values(h: map<string, seq<string>>, key: string): seq<string> {
    if key in h then h[key] else []
  }

  /** headerCtx.Add on the buffered headers: the value goes after the earlier values of that key. */
  function AddHeader(h: map<string, seq<string>>, key: string, value: string): (r: map<string, seq<string>>)
    ensures r.Keys == h.Keys + {key}
    ensures r[key] == Values(h, key) + [value]
    ensures forall k :: k in h && k != key ==> r[k] == h[k]
  {
    h[key := Values(h, key) + [value]]
  }

  /** Adding headers one after another keeps every value, in order. */
  lemma AddHeaderKeepsOrder(h: map<string, seq<string>>, key: string, v1: string, v2: string)
    ensures Values(AddHeader(AddHeader(h, key, v1), key, v2), key) == Values(h, key) + [v1, v2]
  {
    assert Values(h, key) + [v1] + [v2] == Values(h, key) + [v1, v2];
  }

  /** The formats Format offers, and its default. */
  const AllowedFormats: seq<string> := [ContentTypeJSON, ContentTypeText, ContentTypeHTML, ContentTypeXML]

  /**
   * getHeaderAllowedFormat as a property of its result: the default for an
   * empty Accept header; otherwise the first comma-separated entry (not
   * trimmed) that is in the allowed list, or the default when there is none.
   */
  predicate IsNegotiated(accept: string, allowed: seq<string>, default: string, r: string) {
    if accept == "" then r == default
    else
      var wants := Split(accept, ',');
      (exists i :: 0 <= i < |wants| && wants[i] in allowed && r == wants[i] &&
                   forall j :: 0 <= j < i ==> wants[j] !in allowed) ||
      (r == default && forall j :: 0 <= j < |wants| ==> wants[j] !in allowed)
  }

  /** The one result IsNegotiated allows: negotiation is deterministic. */
  lemma NegotiatedUnique(accept: string, allowed: seq<string>, default: string, r1: string, r2: string)
    requires IsNegotiated(accept, allowed, default, r1) && IsNegotiated(accept, allowed, default, r2)
    ensures r1 == r2
  {
    if accept != "" {
      var wants := Split(accept, ',');
      if exists i :: 0 <= i < |wants| && wants[i] in allowed && r1 == wants[i] && forall j :: 0 <= j < i ==> wants[j] !in allowed {
        var i :| 0 <= i < |wants| && wants[i] in allowed && r1 == wants[i] && forall j :: 0 <= j < i ==> wants[j] !in allowed;
        if exists k :: 0 <= k < |wants| && wants[k] in allowed && r2 == wants[k] && forall j :: 0 <= j < k ==> wants[j] !in allowed {
          var k :| 0 <= k < |wants| && wants[k] in allowed && r2 == wants[k] && forall j :: 0 <= j < k ==> wants[j] !in allowed;
          assert !(i < k) && !(k < i);
        }
      }
    }
  }

  /**
   * What Format leaves behind for the format `f`, with `status` the status code
   * and h0, w0 the buffered headers and the writes before the call.
   */
  predicate Formatted(f: string, enc: Encoders, data: Data, status: int,
                      h0: map<string, seq<string>>, w0: seq<Write>,
                      h: map<string, seq<string>>, w: seq<Write>, err: Option<Error>)
  {
    (f == ContentTypeText ==> err.None? && h == h0 && w == w0 + [WriteHeader(status, h), WriteBody(data.Text())]) &&
    (f == ContentTypeHTML ==> err.None? && h == AddHeader(h0, "Content-Type", ContentTypeHTML) &&
                              w == w0 + [WriteHeader(status, h), WriteBody("<p>" + data.Text() + "</p>")]) &&
    (f == ContentTypeJSON ==> Encoded(enc.json(data), ContentTypeJSON, status, h0, w0, h, w, err)) &&
    (f == ContentTypeXML ==> Encoded(enc.xml(data), ContentTypeXML, status, h0, w0, h, w, err))
  }

  /** The JSON and XML branches: an encoding error is returned with nothing sent; otherwise the encoding is sent with its content type. */
  predicate Encoded(e: Result<string, Error>, ct: string, status: int,
                    h0: map<string, seq<string>>, w0: seq<Write>,
                    h: map<string, seq<string>>, w: seq<Write>, err: Option<Error>)
  {
    (e.Fail? ==> err == Some(e.error) && w == w0 && h == h0) &&
    (e.Ok? ==> err.None? && h == AddHeader(h0, "Content-Type", ct) && w == w0 + [WriteHeader(status, h), WriteBody(e.value)])
  }

  /** The request context. */
  class Ctx {
    const route: Option<Route>
    const routeParams: map<string, string>
    const request: Request
    var statusCode: int
    var headers: map<string, seq<string>>
    var store: map<string, Data>
    var writes: seq<Write>

    /** newCtx: status 200, no buffered headers, an empty store, nothing written. */
    constructor (route: Option<Route>, request: Request, routeParams: map<string, string>)
      ensures this.route == route && this.request == request && this.routeParams == routeParams
      ensures statusCode == 200 && headers == map[] && store == map[] && writes == []
    {
      this.route := route;
      this.request := request;
      this.routeParams := routeParams;
      statusCode := 200;
      headers := map[];
      store := map[];
      writes := [];
    }

    /** Param: the stored value, else the first default given, else "". */
    function Param(name: string, defaults: seq<string>): (r: string)
      ensures name in routeParams ==> r == routeParams[name]
      ensures name !in routeParams && |defaults| > 0 ==> r == defaults[0]
      ensures name !in routeParams && |defaults| == 0 ==> r == ""
    {
      if name in routeParams then routeParams[name]
      else if |defaults| > 0 then defaults[0]
      else ""
    }

    /**
     * ParamInt: a missing parameter gives the first default (or 0) together
     * with a "param not found" error, even when a default is given; a present
     * one is parsed by strconv.Atoi.
     */
    function ParamInt(name: string, defaults: seq<int>): (r: (int, Option<Error>))
      ensures name !in routeParams ==> r.1 == Some(Plain("param not found")) && r.0 == (if |defaults| > 0 then defaults[0] else 0)
      ensures name in routeParams ==>
                (r.1.None? <==> IsDecimalSyntax(routeParams[name]) && MinInt64 <= SignedValue(routeParams[name]) <= MaxInt64)
      ensures name in routeParams && r.1.None? ==> r.0 == SignedValue(routeParams[name])
      ensures name in routeParams && r.1.Some? ==>
                (r.0 == 0 && r.1 == Some(Plain(NumErrorText("Atoi", routeParams[name], ErrSyntax)))) ||
                (routeParams[name] != "" &&
                 r.0 == (if routeParams[name][0] == '-' then MinInt64 else MaxInt64) &&
                 r.1 == Some(Plain(NumErrorText("Atoi", routeParams[name], ErrRange))))
      ensures name in routeParams && r.1.Some? && IsDecimalSyntax(routeParams[name]) ==>
                r.0 == (if routeParams[name][0] == '-' then MinInt64 else MaxInt64)
    {
      if name !in routeParams then
        (if |defaults| > 0 then defaults[0] else 0, Some(Plain("param not found")))
      else
        var s := routeParams[name];
        AtoiCorrect(s);
        var n := Atoi(s);
        (n.value, if n.err == NoErr then None else Some(Plain(NumErrorText("Atoi", s, n.err))))
    }

    /** Status: sets the status code sent with the headers. */
    method Status(code: int)
      modifies this
      ensures statusCode == code
      ensures headers == old(headers) && store == old(store) && writes == old(writes)
    {
      statusCode := code;
    }

    /** headerCtx.Add: buffers one more value under the key. */
    method HeaderAdd(key: string, value: string)
      modifies this
      ensures headers == AddHeader(old(headers), key, value)
      ensures statusCode == old(statusCode) && store == old(store) && writes == old(writes)
    {
      headers := AddHeader(headers, key, value);
    }

    /** headerCtx.Get: a request header. */
    function HeaderGet(key: string): string {
      HeaderValue(request.header, key)
    }

    /** ContentType: Add("Content-Type", t). */
    method ContentType(t: string)
      modifies this
      ensures headers == AddHeader(old(headers), "Content-Type", t)
      ensures statusCode == old(statusCode) && store == old(store) && writes == old(writes)
    {
      HeaderAdd("Content-Type", t);
    }

    /** Get: the stored value, None for Go's nil. */
    function Get(key: string): (r: Option<Data>)
      reads this
      ensures r.Some? <==> key in store
      ensures r.Some? ==> r.value == store[key]
    {
      if key in store then Some(store[key]) else None
    }

    /** Set: stores a value for the rest of the request. */
    method Set(key: string, value: Data)
      modifies this
      ensures store == old(store)[key := value]
      ensures statusCode == old(statusCode) && headers == old(headers) && writes == old(writes)
    {
      store := store[key := value];
    }

    /** writeHeaders: the buffered headers and the status go out. */
    method WriteHeaders()
      modifies this
      ensures writes == old(writes) + [WriteHeader(statusCode, headers)]
      ensures statusCode == old(statusCode) && headers == old(headers) && store == old(store)
    {
      writes := writes + [WriteHeader(statusCode, headers)];
    }

    /** Send: the headers, then the body. The writer's own error is not modelled, so Send reports none. */
    method Send(body: string) returns (err: Option<Error>)
      modifies this
      ensures writes == old(writes) + [WriteHeader(statusCode, headers), WriteBody(body)]
      ensures statusCode == old(statusCode) && headers == old(headers) && store == old(store)
      ensures err.None?
    {
      WriteHeaders();
      writes := writes + [WriteBody(body)];
      err := None;
    }

    /** JSON: the encoded value with Content-Type application/json; an encoding error is returned and nothing is sent. */
    method Json(enc: Encoders, data: Data) returns (err: Option<Error>)
      modifies this
      ensures Encoded(enc.json(data), ContentTypeJSON, statusCode, old(headers), old(writes), headers, writes, err)
      ensures statusCode == old(statusCode) && store == old(store)
    {
      match enc.json(data)
      case Fail(e) => return Some(e);
      case Ok(b) =>
        ContentType(ContentTypeJSON);
        err := Send(b);
    }

    /** XML: the encoded value with Content-Type application/xml. */
    method Xml(enc: Encoders, data: Data) returns (err: Option<Error>)
      modifies this
      ensures Encoded(enc.xml(data), ContentTypeXML, statusCode, old(headers), old(writes), headers, writes, err)
      ensures statusCode == old(statusCode) && store == old(store)
    {
      match enc.xml(data)
      case Fail(e) => return Some(e);
      case Ok(b) =>
        ContentType(ContentTypeXML);
        err := Send(b);
    }

    /** getHeaderAllowedFormat: a scan of the Accept header's comma-separated entries. */
    method GetHeaderAllowedFormat(allowed: seq<string>, default: string) returns (format: string)
      ensures IsNegotiated(HeaderGet("Accept"), allowed, default, format)
    {
      var acceptHeader := HeaderGet("Accept");
      if acceptHeader == "" {
        return default;
      }
      var wants := Split(acceptHeader, ',');
      var i := 0;
      while i < |wants|
        invariant 0 <= i <= |wants|
        invariant forall j :: 0 <= j < i ==> wants[j] !in allowed
      {
        if wants[i] in allowed {
          return wants[i];
        }
        i := i + 1;
      }
      return default;
    }

    /**
     * Format: the format negotiated from the Accept header (JSON by default):
     * JSON and XML encode the value; plain text sends its text without setting
     * a content type; HTML sets text/html and wraps the text in <p>...</p>.
     */
    method Format(enc: Encoders, data: Data) returns (err: Option<Error>)
      modifies this
      ensures Formatted(NegotiatedFormat(request), enc, data, statusCode, old(headers), old(writes), headers, writes, err)
      ensures statusCode == old(statusCode) && store == old(store)
    {
      var format := GetHeaderAllowedFormat(AllowedFormats, ContentTypeJSON);
      NegotiatedFormatIsTheResult(request, format);
      var d := data.Text();
      if format == ContentTypeJSON {
        err := Json(enc, data);
      } else if format == ContentTypeText {
        err := Send(d);
      } else if format == ContentTypeHTML {
        ContentType(ContentTypeHTML);
        err := Send("<p>" + d + "</p>");
      } else if format == ContentTypeXML {
        err := Xml(enc, data);
      } else {
        err := Send(d);
      }
    }

    /**
     * Redirect: status 307 unless the status is already 307 or 308, a Location
     * header, and the headers written; it never fails.
     */
    method Redirect(to: string) returns (err: Option<Error>)
      modifies this
      ensures statusCode == if old(statusCode) in {StatusPermanentRedirect, StatusTemporaryRedirect} then old(statusCode) else StatusTemporaryRedirect
      ensures headers == AddHeader(old(headers), "Location", to)
      ensures writes == old(writes) + [WriteHeader(statusCode, headers)]
      ensures store == old(store) && err.None?
    {
      if !(statusCode in [StatusPermanentRedirect, StatusTemporaryRedirect]) {
        Status(StatusTemporaryRedirect);
      }
      HeaderAdd("Location", to);
      WriteHeaders();
      return None;
    }

    /** bodyCtx.ParseForm: not implemented, always a 501 error. */
    function ParseForm(): (err: Error)
      ensures err.StatusError? && err.status == StatusNotImplemented && err.Message() == "Not implemented"
    {
      NewError(StatusNotImplemented, "Not implemented")
    }

    /**
     * bodyCtx.Parse: dispatch on the exact request Content-Type to the JSON or
     * XML decoder (opaque parameters), ParseForm for form bodies, and a 422
     * error for anything else.
     */
    function Parse(jsonDecode: string -> Option<Error>, xmlDecode: string -> Option<Error>): (err: Option<Error>)
      ensures HeaderGet("Content-Type") == ContentTypeJSON ==> err == jsonDecode(request.body)
      ensures HeaderGet("Content-Type") == ContentTypeXML ==> err == xmlDecode(request.body)
      ensures HeaderGet("Content-Type") == ContentTypeForm ==> err == Some(StatusError(StatusNotImplemented, "Not implemented"))
      ensures HeaderGet("Content-Type") !in {ContentTypeJSON, ContentTypeXML, ContentTypeForm} ==>
                err == Some(StatusError(StatusUnprocessableEntity, "Unprocessable Entity"))
    {
      var ct := HeaderGet("Content-Type");
      if ct == ContentTypeJSON then jsonDecode(request.body)
      else if ct == ContentTypeXML then xmlDecode(request.body)
      else if ct == ContentTypeForm then Some(ParseForm())
      else Some(NewError(StatusUnprocessableEntity, "Unprocessable Entity"))
    }
  }

  /** The format Format settles on for a request. */
  function NegotiatedFormat(request: Request): (f: string)
    ensures IsNegotiated(HeaderValue(request.header, "Accept"), AllowedFormats, ContentTypeJSON, f)
    ensures f in AllowedFormats
  {
    var accept := HeaderValue(request.header, "Accept");
    if accept == "" then ContentTypeJSON
    else FirstAllowed(Split(accept, ','), 0)
  }

  /** The first entry of wants[i..] that is an allowed format, else JSON. */
  function FirstAllowed(wants: seq<string>, i: nat): (f: string)
    requires i <= |wants|
    requires forall j :: 0 <= j < i ==> wants[j] !in AllowedFormats
    ensures (exists k :: i <= k < |wants| && wants[k] in AllowedFormats && f == wants[k] &&
                         forall j :: 0 <= j < k ==> wants[j] !in AllowedFormats) ||
            (f == ContentTypeJSON && forall j :: 0 <= j < |wants| ==> wants[j] !in AllowedFormats)
    ensures f in AllowedFormats
    decreases |wants| - i
  {
    if i == |wants| then ContentTypeJSON
    else if wants[i] in AllowedFormats then wants[i]
    else FirstAllowed(wants, i + 1)
  }

  lemma NegotiatedFormatIsTheResult(request: Request, format: string)
    requires IsNegotiated(HeaderValue(request.header, "Accept"), AllowedFormats, ContentTypeJSON, format)
    ensures format == NegotiatedFormat(request)
  {
    NegotiatedUnique(HeaderValue(request.header, "Accept"), AllowedFormats, ContentTypeJSON, format, NegotiatedFormat(request));
  }

  /** With no Accept header, Format answers in JSON. */
  lemma FormatDefaultsToJson(request: Request)
    requires HeaderValue(request.header, "Accept") == ""
    ensures NegotiatedFormat(request) == ContentTypeJSON
  {
  }

  /** Entries are compared untrimmed: "text/html, application/json" yields text/html, and " text/html" alone is not recognised. */
  lemma AcceptEntriesUntrimmed()
    ensures IsNegotiated(" text/html", AllowedFormats, ContentTypeJSON, ContentTypeJSON)
  {
    SplitNoSep(" text/html", ',');
    assert " text/html" != ContentTypeHTML;
  }
}
