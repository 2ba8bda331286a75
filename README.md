# A verified model of the aio-aem-proxy request pipeline

The repository is one Adobe I/O Runtime web action, `main` in
`actions/proxy/index.js`. It proxies a browser request to the AEM instance
named in the `aem-url` header. Before it forwards anything, it checks the
caller's origin and the destination against two allow-lists. It answers CORS
preflight requests itself. It relays the destination's answer as text or as
JSON.

This project models `main` as what it is once logging, the network and JSON
parsing are set aside: a pure decision followed by one optional outbound call.

- `Proxy.Decide` runs the checks in the action's order: parse the referer,
  check the origin allow-list on its hostname, short-circuit `OPTIONS`,
  check for the `aem-url` header, then check the destination allow-list.
  It ends in one `Outcome`: `Preflight`, `ClientError` (a 400), `ServerError`
  (an exception the action's `catch` turns into a 500), or `Forward` of one
  `Outbound` request (a URL plus the authorization header).
- `Proxy.Relay` maps the destination's answer to the reply: a 500 when the
  client fails, for a non-ok status, or for an ok answer without a
  Content-Type; otherwise a 200 whose body is read as text or as JSON.
- `Proxy.Main` composes the two. The HTTP client is a function parameter, so
  "the client is called only after both allow-lists passed" is a theorem
  about `Main`.
- `JsStrings` holds the JavaScript string steps with their exact semantics:
  - `destUrl.replace(/\/+$/, '')` strips every trailing slash;
  - `path.replace(';', '%3B')` escapes only the FIRST semicolon;
  - `toLowerCase() == "options"`;
  - the `/html/i` test;
  - the decimal rendering of the status code in the error message.

The collaborators imported from `../utils` are fields of the `Collaborators`
datatype, and no semantics are invented for them. These are
`checkInAllowList` (once for the origin, once for the destination) and
`checkMissingRequestInputs`; the URL parser is one as well:
`new URL(referer).hostname` is a partial function giving `None` when the
constructor throws. The referer that `getReferer` returns is the `referer`
field of `Request`. A checker's message counts as a rejection only when it is
truthy in JavaScript, so an empty message lets the request through (`Truthy`).

Four places where the code does something a reader might not expect, each
modelled as the code does it:

- An unparseable referer gives a 500 through the `catch` block, not a 400.
- Only the first `;` of the path is escaped, not every one.
- The endpoint and the path are joined with no `/` between them.
- `res.ok` is taken, as the Fetch standard defines it, as a status in 200..299.

The upstream-failure message embeds the authorization value. The model keeps
this, and `UpstreamNotOk` states it.

Files: `wrappers.dfy` (Option), `js_strings.dfy` (module `JsStrings`),
`proxy.dfy` (module `Proxy`), `proxy_properties.dfy` (module
`ProxyProperties`).

## Model

| member | source | states |
|---|---|---|
| `Proxy.Decide` | actions/proxy/index.js:34-97 | A Forward outcome implies the origin allow-list accepted the referer's hostname and the destination allow-list accepted the raw aem-url; it forwards the inbound authorization; a preflight echoes the full referer after an accepted origin; a client error carries a non-empty message |
| `Proxy.ServerReply` | actions/proxy/index.js:121-125 | Every caught exception becomes a 500 whose message starts with "server error: " |
| `Proxy.Relay` | actions/proxy/index.js:99-115 | A success reply is a 200 with the referer as allowed origin and credentials true; it only arises from a received answer with an ok status; everything else is a 500 |
| `Proxy.Main` | actions/proxy/index.js:22-127 | Every success reply is a 200 echoing the referer and arises only after the origin check passed; every error reply is a 400 or a 500 |
| `ProxyProperties.UnparseableReferer` | actions/proxy/index.js:40-41 | A referer that URL parsing rejects gives ServerError, i.e. a 500 "server error: ..." from the catch block (lines 121-125), never a 400; no later input changes the reply |
| `ProxyProperties.OriginRejected` | actions/proxy/index.js:43-48 | A truthy answer of the origin allow-list on the HOSTNAME gives a 400 with that message; method, required header, destination check and HTTP client cannot change the reply |
| `ProxyProperties.PreflightShortCircuit` | actions/proxy/index.js:50-60 | With an accepted origin and a method lower-casing to "options", the reply is 200, no body, allow-origin = full referer, credentials true, allow-headers exactly "Authorization, content-type, aem-url"; missing-input check, destination check, path, headers and client play no part |
| `ProxyProperties.MissingInputRejected` | actions/proxy/index.js:62-69 | For another method and an accepted origin, a truthy missing-input message gives a 400 with it, whatever the destination check, path or client |
| `ProxyProperties.DestinationRejected` | actions/proxy/index.js:71-82 | The destination allow-list is asked about the raw aem-url value; a truthy answer gives a 400 with it, whatever the path, authorization or client |
| `ProxyProperties.ForwardExactly` | actions/proxy/index.js:44-98 | A request is forwarded if and only if every check passed and method, aem-url and path are defined; the outbound request is stripped endpoint + escaped path with the inbound authorization only |
| `ProxyProperties.FetchOnlyAfterBothChecks` | actions/proxy/index.js:92-98 | The HTTP client can influence the reply only when the request was forwarded, hence only after both allow-lists passed, and only through its answer to that one outbound request |
| `ProxyProperties.EmptyOriginMessagePasses` | actions/proxy/index.js:44-45 | An empty-string answer of the origin allow-list acts exactly like no answer: the outcome and the reply are those of a checker that returns nothing |
| `ProxyProperties.EmptyMissingMessagePasses` | actions/proxy/index.js:65-66 | An empty-string answer of the missing-input check acts exactly like no answer: the outcome and the reply are unchanged |
| `ProxyProperties.EmptyDestinationMessagePasses` | actions/proxy/index.js:78-79 | An empty-string answer of the destination allow-list acts exactly like no answer: the outcome and the reply are unchanged |
| `ProxyProperties.OutboundUrlShape` | actions/proxy/index.js:88-93 | The outbound URL is the destination without trailing slashes (which no longer ends in '/', and the destination is it plus k slashes) followed by the path with only its first ';' replaced by %3B |
| `ProxyProperties.UpstreamNotOk` | actions/proxy/index.js:99-101 | A status outside 200..299 gives a 500 whose message contains the outbound URL, the decimal status code and the authorization value |
| `ProxyProperties.UpstreamOk` | actions/proxy/index.js:105-114 | An ok answer with a Content-Type gives a 200 with the referer as allowed origin, credentials true, and a Text body exactly when the content type contains "html" case-insensitively, a JSON body otherwise |
| `ProxyProperties.UpstreamWithoutContentType` | actions/proxy/index.js:92-105 | An ok answer with no Content-Type (null.match throws), or a client that fails, gives a 500 |
| `ProxyProperties.SuccessfulBodyOnlyAfterBothChecks` | actions/proxy/index.js:44-114 | Every 200 reply with a body came from a forwarded request that passed both allow-lists, and carries the referer as allowed origin |
| `JsStrings.StripTrailingSlashes` | actions/proxy/index.js:88 | The result does not end in '/', is a prefix of the input, and every character removed is '/' |
| `JsStrings.StripDecomposes` | actions/proxy/index.js:88 | The destination equals the endpoint followed by k >= 0 slashes |
| `JsStrings.StripSlashSuffix` | actions/proxy/index.js:88 | For any t not ending in '/', stripping t followed by k slashes gives t back (the result is unique) |
| `JsStrings.StripIdempotent` | actions/proxy/index.js:88 | Stripping twice is the same as stripping once |
| `JsStrings.EscapeFirstSemicolon` | actions/proxy/index.js:89 | A path with no ';' is unchanged; with a ';' the output is two characters longer |
| `JsStrings.EscapeSkipsPrefix` | actions/proxy/index.js:89 | Semicolon-free text before the rest of the path is copied unchanged |
| `JsStrings.EscapeAt` | actions/proxy/index.js:89 | With the first ';' at index i, the output is path[..i] + "%3B" + path[i+1..]: everything after it, later ';' included, is unchanged |
| `JsStrings.EscapeRemovesOneSemicolon` | actions/proxy/index.js:89 | The output has exactly one ';' fewer than the path |
| `JsStrings.EscapeFirst` | actions/proxy/index.js:89 | Semicolon-free text followed by ';' and a rest becomes that text, "%3B", the rest |
| `JsStrings.EscapeTwice` | actions/proxy/index.js:89 | Commentary on the single escape the action performs: applying it again would replace the second ';' too, so the escape is not idempotent |
| `JsStrings.IsOptions` | actions/proxy/index.js:51 | `toLowerCase() == "options"`: only seven-character methods pass and "options" itself passes; `OptionsAnyCase` characterises it completely |
| `JsStrings.ContainsHtml` | actions/proxy/index.js:105 | The `/html/i` scan: it needs at least four characters and finds "html" at the start; `ContainsHtmlSpec` characterises it completely |
| `Proxy.Truthy` | actions/proxy/index.js:45-79 | The `if (message)` tests at lines 45, 66 and 79: a rejection needs a present, non-empty message; `EmptyOriginMessagePasses`, `EmptyMissingMessagePasses` and `EmptyDestinationMessagePasses` show that an empty message acts exactly like none at each of the three tests |
| `Proxy.OkStatus` | actions/proxy/index.js:99 | `res.ok` holds exactly for statuses of the 2xx class |
| `Proxy.OutboundUrl` | actions/proxy/index.js:88-93 | `apiEndpoint + persistedQueryPath`: it starts with the slash-free-ended endpoint, is the endpoint plus the path when the path has no ';', and is two characters longer than both together when it has one; `OutboundUrlShape` gives the exact form |
| `Proxy.UpstreamStatusText` | actions/proxy/index.js:100 | The thrown message contains the outbound URL, the decimal status code and the authorization value (or "undefined") |
| `Proxy.FaultText` | actions/proxy/index.js:125 | The rendering of a caught exception is non-empty, and for a non-ok answer contains the URL and the status code |
| `JsStrings.OptionsAnyCase` | actions/proxy/index.js:51 | The OPTIONS test holds exactly for seven-character methods spelling "options" in any mix of case |
| `JsStrings.ContainsHtmlSpec` | actions/proxy/index.js:105 | The scan for /html/i succeeds if and only if some index starts "html" in any case |
| `JsStrings.Decimal` | actions/proxy/index.js:100 | The rendering of the status code is non-empty, all digits, with no leading zero |
| `JsStrings.DecimalRoundTrip` | actions/proxy/index.js:100 | Reading the rendered digits back gives the status code |

## Left out

- Logging (`Core.Logger`, lines 24, 28, 31, 103, 118, 122) and `stringParameters`: diagnostics with no effect on the reply.
- The network call itself (`node-fetch`, lines 92-98): the client is the function parameter `fetch` of `Proxy.Main`. Its answer is `Unreachable` or a status, an optional Content-Type and the raw body. Redirects, timeouts and streaming are not modelled.
- JSON parsing of the body (`res.json()`): a foreign library. `JsonBody` records the choice and keeps the raw text, and a body that fails to parse (another 500) is not modelled.
- The `'testing': Date.now()` header (line 112): it depends on the clock and is left out of `CorsHeaders`.
- `checkInAllowList`, `checkMissingRequestInputs`, `getReferer` and `errorResponse` from `../utils`: `../utils` is not part of this model. The first three are uninterpreted parameters, and `errorResponse(status, message)` is the `Failure(status, message)` reply, whose body format is not modelled.
- WHATWG URL parsing behind `new URL(...).hostname`: a foreign call, modelled as `hostnameOf`, a partial function.
- Proxy.FaultText: the wording JavaScript gives to the runtime's own exceptions (invalid URL, property of undefined, null `.match`, fetch failure) is not modelled. Each is a fixed stand-in text. Only the upstream-status message, which the action builds itself, is rendered exactly.
- JsStrings.Lower: `toLowerCase` is modelled on ASCII letters only. This is exact for the comparison with "options", because no other character lower-cases to a single one of its letters. Likewise `/html/i` without the `u` flag matches case-insensitively on ASCII only.
- The `../utils` collaborators (`getReferer`, `checkInAllowList`, `checkMissingRequestInputs`) are taken never to throw, and `params.__ow_headers` is taken to be present. In the source, an exception from either also ends in a 500, which `Proxy.Fault` cannot represent.
- `getReferer` is taken to return a string. An absent referer is whatever string it yields, and the URL parser decides about it.
