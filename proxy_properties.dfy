/** What the proxy action guarantees, stated over `Decide`, `Relay` and
    `Main`: the order of its checks (a later input is never consulted once an
    earlier check has answered), the shape of the outbound URL, and the
    mapping from the destination's answer to the reply. "Never consulted" is
    stated the only way a pure model can: changing any input the action has
    not yet reached does not change the outcome. */
module ProxyProperties {
  import opened Wrappers
  import opened JsStrings
  import opened Proxy

  /** `req2`/`c2` agree with `req`/`c` on the referer and on what URL parsing
      and the origin allow-list say about it. */
  predicate SameOriginInputs(req: Request, c: Collaborators, req2: Request, c2: Collaborators) {
    req2.referer == req.referer &&
    c2.hostnameOf(req.referer) == c.hostnameOf(req.referer) &&
    (c.hostnameOf(req.referer).Some? ==>
      c2.checkOrigin(c.hostnameOf(req.referer).value) == c.checkOrigin(c.hostnameOf(req.referer).value))
  }

  // ---------------------------------------------------------------------------
  // The order of the checks
  // ---------------------------------------------------------------------------

  /** A referer that does not parse as a URL makes `new URL` throw: the
      `catch` block answers 500 "server error: ...", never 400, and nothing
      after the parse is consulted. */
  lemma UnparseableReferer(req: Request, c: Collaborators, fetch: Outbound -> Upstream,
                           req2: Request, c2: Collaborators, fetch2: Outbound -> Upstream)
    requires c.hostnameOf(req.referer).None?
    requires SameOriginInputs(req, c, req2, c2)
    ensures Decide(req, c) == ServerError(InvalidReferer)
    ensures Main(req, c, fetch) == ServerReply(InvalidReferer)
    ensures Main(req, c, fetch).statusCode == 500 != 400
    ensures Main(req2, c2, fetch2) == Main(req, c, fetch)
  {
  }

  /** A truthy answer of the origin allow-list, asked about the referer's
      HOSTNAME, is a 400 carrying that answer; the method, the required
      header, the destination and the HTTP client are never reached. */
  lemma OriginRejected(req: Request, c: Collaborators, fetch: Outbound -> Upstream,
                       req2: Request, c2: Collaborators, fetch2: Outbound -> Upstream)
    requires c.hostnameOf(req.referer).Some?
    requires Truthy(c.checkOrigin(c.hostnameOf(req.referer).value))
    requires SameOriginInputs(req, c, req2, c2)
    ensures Decide(req, c) == ClientError(c.checkOrigin(c.hostnameOf(req.referer).value).value)
    ensures Main(req, c, fetch) == Failure(400, c.checkOrigin(c.hostnameOf(req.referer).value).value)
    ensures Main(req2, c2, fetch2) == Main(req, c, fetch)
  {
  }

  /** With an allowed origin, a method that lower-cases to "options" gets the
      preflight reply: 200, no body, the FULL referer as allowed origin,
      credentials allowed and the fixed list of allowed headers. Neither the
      required-header check, nor the destination check, nor the path, the
      header values or the HTTP client play a part. */
  lemma PreflightShortCircuit(req: Request, c: Collaborators, fetch: Outbound -> Upstream,
                              req2: Request, c2: Collaborators, fetch2: Outbound -> Upstream)
    requires OriginAllowed(req, c)
    requires req.verb.Some? && IsOptions(req.verb.value)
    requires SameOriginInputs(req, c, req2, c2) && req2.verb == req.verb
    ensures Decide(req, c) == Preflight(req.referer)
    ensures Main(req, c, fetch) ==
      Success(200, CorsHeaders(req.referer, true, Some("Authorization, content-type, aem-url")), NoBody)
    ensures Main(req2, c2, fetch2) == Main(req, c, fetch)
  {
  }

  /** With an allowed origin and any other method, a truthy answer of the
      missing-input check is a 400 carrying it; the destination check and the
      HTTP client are never reached. */
  lemma MissingInputRejected(req: Request, c: Collaborators, fetch: Outbound -> Upstream,
                             req2: Request, c2: Collaborators, fetch2: Outbound -> Upstream)
    requires OriginAllowed(req, c)
    requires req.verb.Some? && !IsOptions(req.verb.value)
    requires Truthy(c.missingInputs)
    requires SameOriginInputs(req, c, req2, c2) && req2.verb == req.verb
    requires c2.missingInputs == c.missingInputs
    ensures Decide(req, c) == ClientError(c.missingInputs.value)
    ensures Main(req, c, fetch) == Failure(400, c.missingInputs.value)
    ensures Main(req2, c2, fetch2) == Main(req, c, fetch)
  {
  }

  /** The destination allow-list is asked about the RAW aem-url header,
      before its trailing slashes are stripped; a truthy answer is a 400
      carrying it, and the path, the authorization and the HTTP client play
      no part. */
  lemma DestinationRejected(req: Request, c: Collaborators, fetch: Outbound -> Upstream,
                            req2: Request, c2: Collaborators, fetch2: Outbound -> Upstream)
    requires OriginAllowed(req, c)
    requires req.verb.Some? && !IsOptions(req.verb.value)
    requires !Truthy(c.missingInputs)
    requires Truthy(c.checkDestination(req.aemUrl))
    requires SameOriginInputs(req, c, req2, c2) && req2.verb == req.verb
    requires c2.missingInputs == c.missingInputs
    requires req2.aemUrl == req.aemUrl && c2.checkDestination(req.aemUrl) == c.checkDestination(req.aemUrl)
    ensures Decide(req, c) == ClientError(c.checkDestination(req.aemUrl).value)
    ensures Main(req, c, fetch) == Failure(400, c.checkDestination(req.aemUrl).value)
    ensures Main(req2, c2, fetch2) == Main(req, c, fetch)
  {
  }

  /** A request is forwarded exactly when every check has passed and every
      value the URL is built from is defined; the outbound request is then
      the stripped destination followed by the escaped path, with the
      inbound authorization header. */
  lemma ForwardExactly(req: Request, c: Collaborators)
    ensures Decide(req, c).Forward? <==>
      OriginAllowed(req, c) &&
      req.verb.Some? && !IsOptions(req.verb.value) &&
      !Truthy(c.missingInputs) &&
      DestinationAllowed(req, c) &&
      req.aemUrl.Some? && req.path.Some?
    ensures Decide(req, c).Forward? ==>
      Decide(req, c).request == Outbound(OutboundUrl(req.aemUrl.value, req.path.value), req.authorization)
  {
  }

  /** The HTTP client is consulted only for a forwarded request, and so only
      after both allow-lists passed: if two clients can make the action answer
      differently, the request passed both checks and was forwarded, and the
      answer depends on nothing but what the client returned for it. */
  lemma FetchOnlyAfterBothChecks(req: Request, c: Collaborators,
                                 fetch: Outbound -> Upstream, fetch2: Outbound -> Upstream)
    ensures !Decide(req, c).Forward? ==> Main(req, c, fetch) == Main(req, c, fetch2)
    ensures Main(req, c, fetch) != Main(req, c, fetch2) ==>
      OriginAllowed(req, c) && DestinationAllowed(req, c)
    ensures Decide(req, c).Forward? ==>
      Main(req, c, fetch) == Relay(req.referer, Decide(req, c).request, fetch(Decide(req, c).request))
  {
  }

  /** A falsy answer lets the request through: an empty message from the
      origin allow-list acts exactly like no message at all. */
  lemma EmptyOriginMessagePasses(req: Request, c: Collaborators, fetch: Outbound -> Upstream)
    requires c.hostnameOf(req.referer).Some?
    requires c.checkOrigin(c.hostnameOf(req.referer).value) == Some("")
    ensures Decide(req, c) == Decide(req, c.(checkOrigin := (h: string) => None))
    ensures Main(req, c, fetch) == Main(req, c.(checkOrigin := (h: string) => None), fetch)
  {
  }

  /** An empty message from the missing-input check acts exactly like no
      message at all. */
  lemma EmptyMissingMessagePasses(req: Request, c: Collaborators, fetch: Outbound -> Upstream)
    requires c.missingInputs == Some("")
    ensures Decide(req, c) == Decide(req, c.(missingInputs := None))
    ensures Main(req, c, fetch) == Main(req, c.(missingInputs := None), fetch)
  {
  }

  /** An empty message from the destination allow-list acts exactly like no
      message at all. */
  lemma EmptyDestinationMessagePasses(req: Request, c: Collaborators, fetch: Outbound -> Upstream)
    requires c.checkDestination(req.aemUrl) == Some("")
    ensures Decide(req, c) == Decide(req, c.(checkDestination := (d: Option<string>) => None))
    ensures Main(req, c, fetch) == Main(req, c.(checkDestination := (d: Option<string>) => None), fetch)
  {
  }

  // ---------------------------------------------------------------------------
  // The outbound URL
  // ---------------------------------------------------------------------------

  /** The outbound URL is the destination without its trailing slashes,
      followed by the path with its first semicolon (only) escaped. */
  lemma OutboundUrlShape(destUrl: string, path: string)
    ensures var endpoint := StripTrailingSlashes(destUrl);
      !EndsWithSlash(endpoint) &&
      destUrl == endpoint + Slashes(|destUrl| - |endpoint|) &&
      OutboundUrl(destUrl, path) == endpoint + EscapeFirstSemicolon(path)
    ensures ';' !in path ==> OutboundUrl(destUrl, path) == StripTrailingSlashes(destUrl) + path
    ensures forall i: nat :: FirstSemicolonAt(path, i) ==>
      OutboundUrl(destUrl, path) == StripTrailingSlashes(destUrl) + path[..i] + "%3B" + path[i + 1..]
  {
    StripDecomposes(destUrl);
    forall i: nat | FirstSemicolonAt(path, i)
      ensures OutboundUrl(destUrl, path) == StripTrailingSlashes(destUrl) + path[..i] + "%3B" + path[i + 1..]
    {
      EscapeAt(path, i);
    }
  }

  // ---------------------------------------------------------------------------
  // The destination's answer
  // ---------------------------------------------------------------------------

  /** A non-ok answer is thrown and caught: a 500 whose message names the
      outbound URL and the status code (and, as the action writes it, the
      authorization value as well). */
  lemma UpstreamNotOk(referer: string, out: Outbound, status: nat, contentType: Option<string>, body: string)
    requires !OkStatus(status)
    ensures Relay(referer, out, Received(status, contentType, body)).Failure?
    ensures Relay(referer, out, Received(status, contentType, body)).statusCode == 500
    ensures Contains(Relay(referer, out, Received(status, contentType, body)).message, out.url)
    ensures Contains(Relay(referer, out, Received(status, contentType, body)).message, Decimal(status))
    ensures Contains(Relay(referer, out, Received(status, contentType, body)).message, JsConcatText(out.authorization))
  {
    var text := UpstreamStatusText(out, status);
    assert Relay(referer, out, Received(status, contentType, body)).message == "server error: " + text;
    ContainsAfterPrefix("server error: ", text, out.url);
    ContainsAfterPrefix("server error: ", text, Decimal(status));
    ContainsAfterPrefix("server error: ", text, JsConcatText(out.authorization));
  }

  /** An ok answer with a Content-Type is a 200 with the referer as allowed
      origin and credentials allowed; its body is read as text exactly when
      the content type contains "html" in any case, and as JSON otherwise. */
  lemma UpstreamOk(referer: string, out: Outbound, status: nat, contentType: string, body: string)
    requires OkStatus(status)
    ensures Relay(referer, out, Received(status, Some(contentType), body)).Success?
    ensures Relay(referer, out, Received(status, Some(contentType), body)).statusCode == 200
    ensures Relay(referer, out, Received(status, Some(contentType), body)).headers ==
      CorsHeaders(referer, true, None)
    ensures Relay(referer, out, Received(status, Some(contentType), body)).body ==
      (if exists i :: HtmlAt(contentType, i) then TextBody(body) else JsonBody(body))
  {
    ContainsHtmlSpec(contentType);
  }

  /** An ok answer without a Content-Type header makes `.match` throw on
      null: a 500. So does a client that fails outright. */
  lemma UpstreamWithoutContentType(referer: string, out: Outbound, status: nat, body: string)
    requires OkStatus(status)
    ensures Relay(referer, out, Received(status, None, body)) == ServerReply(MissingContentType)
    ensures Relay(referer, out, Unreachable) == ServerReply(FetchRejected)
  {
  }

  /** End to end: every 200 reply with a body came from a forwarded request,
      so both allow-lists passed, and its allowed origin is the referer. */
  lemma SuccessfulBodyOnlyAfterBothChecks(req: Request, c: Collaborators, fetch: Outbound -> Upstream)
    requires Main(req, c, fetch).Success? && Main(req, c, fetch).body != NoBody
    ensures Decide(req, c).Forward?
    ensures OriginAllowed(req, c) && DestinationAllowed(req, c)
    ensures Main(req, c, fetch).headers == CorsHeaders(req.referer, true, None)
  {
  }
}
