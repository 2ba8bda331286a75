/** The request pipeline of the proxy action (`main` in
    actions/proxy/index.js) as two pure steps:

    - `Decide` runs the checks in the order the action runs them and ends in
      exactly one Outcome: a CORS preflight, a client error, a server error
      (an exception caught by the action's `catch`), or a forward to one
      outbound URL;
    - `Relay` turns what the destination answered into the reply.

    `Main` composes the two. The collaborators the action imports from
    `../utils`, and the WHATWG URL parser, are parameters (`Collaborators`);
    the HTTP client is the function `fetch` handed to `Main`. */
module Proxy {
  import opened Wrappers
  import opened JsStrings

  /** What the action reads from its invocation parameters. An absent field
      (JavaScript `undefined`) is `None`. */
  datatype Request = Request(
    referer: string,                // what getReferer(params) returns
    verb: Option<string>,           // params.__ow_method
    path: Option<string>,           // params.__ow_path
    aemUrl: Option<string>,         // params.__ow_headers['aem-url']
    authorization: Option<string>)  // params.__ow_headers.authorization

  /** The foreign functions the action calls, left uninterpreted. A checker
      answers with a message; the action treats a message as a rejection only
      when it is truthy. */
  datatype Collaborators = Collaborators(
    hostnameOf: string -> Option<string>,               // new URL(x).hostname; None when URL throws
    checkOrigin: string -> Option<string>,              // checkInAllowList(allowlist_origin, ·)
    missingInputs: Option<string>,                      // checkMissingRequestInputs(params, [], ['aem-url'])
    checkDestination: Option<string> -> Option<string>) // checkInAllowList(allowlist_destination, ·)

  /** The outbound request: a URL and the forwarded authorization header,
      and nothing else. */
  datatype Outbound = Outbound(url: string, authorization: Option<string>)

  /** The exceptions of the action's own steps that reach its `catch`
      block. Exceptions thrown inside the `../utils` collaborators, or by a
      missing `params.__ow_headers`, are not among them. */
  datatype Fault =
    | InvalidReferer                                 // new URL(referer) throws
    | UndefinedMethod                                // undefined.toLowerCase()
    | UndefinedDestination                           // undefined.replace(...) on the aem-url header
    | UndefinedPath                                  // undefined.replace(...) on the path
    | FetchRejected                                  // the HTTP client itself fails
    | UpstreamStatus(request: Outbound, status: nat) // thrown on a non-ok answer
    | MissingContentType                             // null.match(...) on the Content-Type header

  datatype Outcome =
    | Preflight(allowOrigin: string)
    | ClientError(message: string)
    | ServerError(fault: Fault)
    | Forward(request: Outbound)

  /** What the destination answered; `Unreachable` when the HTTP client
      rejects. */
  datatype Upstream =
    | Unreachable
    | Received(status: nat, contentType: Option<string>, body: string)

  datatype Body = NoBody | TextBody(text: string) | JsonBody(source: string)

  datatype CorsHeaders = CorsHeaders(
    allowOrigin: string,
    allowCredentials: bool,
    allowHeaders: Option<string>)

  /** `Failure` is what errorResponse(status, message, logger) produces. */
  datatype Reply =
    | Success(statusCode: nat, headers: CorsHeaders, body: Body)
    | Failure(statusCode: nat, message: string)

  const PreflightAllowHeaders: string := "Authorization, content-type, aem-url"

  /** JavaScript truthiness of a checker's answer: `undefined`, `null` and
      the empty string are falsy. */
  function Truthy(m: Option<string>): (r: bool)
    ensures r ==> m.Some? && |m.value| > 0
  {
    m.Some? && m.value != ""
  }

  /** The referer parses as a URL and the origin allow-list accepts its
      hostname. */
  predicate OriginAllowed(req: Request, c: Collaborators) {
    c.hostnameOf(req.referer).Some? && !Truthy(c.checkOrigin(c.hostnameOf(req.referer).value))
  }

  /** The destination allow-list accepts the raw aem-url header value. */
  predicate DestinationAllowed(req: Request, c: Collaborators) {
    !Truthy(c.checkDestination(req.aemUrl))
  }

  /** `res.ok` of the Fetch standard. */
  function OkStatus(status: nat): (r: bool)
    ensures r <==> status / 100 == 2
  {
    200 <= status < 300
  }

  /** apiEndpoint + persistedQueryPath */
  function OutboundUrl(destUrl: string, path: string): (r: string)
    ensures ';' !in path ==> r == StripTrailingSlashes(destUrl) + path
    ensures |r| == |StripTrailingSlashes(destUrl)| + |path| + (if ';' in path then 2 else 0)
    ensures !EndsWithSlash(StripTrailingSlashes(destUrl)) && r[..|StripTrailingSlashes(destUrl)|] == StripTrailingSlashes(destUrl)
  {
    StripTrailingSlashes(destUrl) + EscapeFirstSemicolon(path)
  }

  /** The checks of `main`, in the order of its early returns. */
  function Decide(req: Request, c: Collaborators): (r: Outcome)
    ensures r.Forward? ==> OriginAllowed(req, c) && DestinationAllowed(req, c)
    ensures r.Forward? ==> r.request.authorization == req.authorization
    ensures r.Preflight? ==> OriginAllowed(req, c) && r.allowOrigin == req.referer
    ensures r.ClientError? ==> r.message != ""
  {
    match c.hostnameOf(req.referer)
    case None => ServerError(InvalidReferer)
    case Some(host) =>
      if Truthy(c.checkOrigin(host)) then ClientError(c.checkOrigin(host).value)
      else if req.verb.None? then ServerError(UndefinedMethod)
      else if IsOptions(req.verb.value) then Preflight(req.referer)
      else if Truthy(c.missingInputs) then ClientError(c.missingInputs.value)
      else if Truthy(c.checkDestination(req.aemUrl)) then ClientError(c.checkDestination(req.aemUrl).value)
      else if req.aemUrl.None? then ServerError(UndefinedDestination)
      else if req.path.None? then ServerError(UndefinedPath)
      else Forward(Outbound(OutboundUrl(req.aemUrl.value, req.path.value), req.authorization))
  }

  /** String concatenation renders `undefined` as "undefined". */
  function JsConcatText(v: Option<string>): string {
    v.GetOr("undefined")
  }

  /** The text of `new Error(...)` thrown on a non-ok answer, as `'' + error`
      renders it. */
  function UpstreamStatusText(out: Outbound, status: nat): (r: string)
    ensures Contains(r, out.url)
    ensures Contains(r, Decimal(status))
    ensures Contains(r, JsConcatText(out.authorization))
  {
    ContainsEachPart("Error: request to ", out.url, " with authorization ",
      JsConcatText(out.authorization), " failed with status code ", Decimal(status));
    "Error: request to " + out.url + " with authorization " + JsConcatText(out.authorization)
      + " failed with status code " + Decimal(status)
  }

  /** How the JavaScript runtime renders the other exceptions is not part
      of this model: each stands for its own fixed text. */
  function FaultText(f: Fault): (r: string)
    ensures |r| > 0
    ensures f.UpstreamStatus? ==> Contains(r, f.request.url) && Contains(r, Decimal(f.status))
  {
    match f
    case InvalidReferer => "TypeError: Invalid URL"
    case UndefinedMethod => "TypeError: __ow_method is undefined"
    case UndefinedDestination => "TypeError: aem-url is undefined"
    case UndefinedPath => "TypeError: __ow_path is undefined"
    case FetchRejected => "FetchError"
    case UpstreamStatus(out, status) => UpstreamStatusText(out, status)
    case MissingContentType => "TypeError: Content-Type is null"
  }

  /** errorResponse(500, 'server error: ' + error, logger) */
  function ServerReply(f: Fault): (r: Reply)
    ensures r.Failure? && r.statusCode == 500
    ensures |r.message| >= |"server error: "| && r.message[..|"server error: "|] == "server error: "
  {
    Failure(500, "server error: " + FaultText(f))
  }

  /** Lines 99-125: the destination's answer becomes the reply. */
  function Relay(referer: string, out: Outbound, up: Upstream): (r: Reply)
    ensures r.Success? ==> r.statusCode == 200 && r.headers == CorsHeaders(referer, true, None)
    ensures r.Success? ==> up.Received? && OkStatus(up.status)
    ensures r.Failure? ==> r.statusCode == 500
  {
    match up
    case Unreachable => ServerReply(FetchRejected)
    case Received(status, contentType, body) =>
      if !OkStatus(status) then ServerReply(UpstreamStatus(out, status))
      else match contentType
        case None => ServerReply(MissingContentType)
        case Some(ct) =>
          Success(200, CorsHeaders(referer, true, None),
                  if ContainsHtml(ct) then TextBody(body) else JsonBody(body))
  }

  /** The whole action: the decision, then at most one call of `fetch`. */
  function Main(req: Request, c: Collaborators, fetch: Outbound -> Upstream): (r: Reply)
    ensures r.Success? ==> r.statusCode == 200 && r.headers.allowOrigin == req.referer
    ensures r.Success? ==> OriginAllowed(req, c)
    ensures r.Failure? ==> r.statusCode == 400 || r.statusCode == 500
  {
    match Decide(req, c)
    case Preflight(origin) =>
      Success(200, CorsHeaders(origin, true, Some(PreflightAllowHeaders)), NoBody)
    case ClientError(message) => Failure(400, message)
    case ServerError(fault) => ServerReply(fault)
    case Forward(out) => Relay(req.referer, out, fetch(out))
  }
}
