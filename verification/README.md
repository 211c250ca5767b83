# GenAI proxy forwarding engine, modelled in Dafny

This project models the forwarding engine of a single-upstream HTTP proxy that sits in front of a GenAI chat-completions API (`main.py`). Web framework, HTTP client and environment are left out. What remains is the deterministic logic that decides what goes upstream and what comes back:

- **Header handling** (`headers.dfy`, `settings.dfy`). `Redact` masks sensitive header values for the logs. `BuildForwardHeaders` is the loop that builds the outbound header map: a `Content-Type` default, the injected credential, then every client header that is neither hop-by-hop nor sensitive, copied verbatim. `Passthrough` is the header filter of the streaming relay. Names are compared after ASCII lower-casing and stored exactly as received.
- **Outbound request** (`outbound.dfy`). This covers the upstream URL, the rule that a buffered GET or DELETE carries no content, and the correlation id.
- **Payload normalisation** (`json.dfy`, `normalize.dfy`). For a non-empty JSON object posted to `/v1/chat/completions` whose `str(model)` lower-cases to something starting with `gpt-5`, the token-limit field is renamed or defaulted (128000) and `temperature` is forced to 1. `Accept: text/event-stream` is set when `stream` is exactly `true`. The body is then re-serialised. Stream detection re-parses the final body. JSON parsing and serialisation are passed in as a `Codec` record of functions.
- **Retry loop** (`transport.dfy`, `retry.dfy`). Each attempt's outcome comes from a function `nat -> Outcome`. The loop makes at most MAX_RETRIES + 1 attempts and returns on any completed exchange. After a retryable failure (ConnectError, ReadTimeout, RemoteProtocolError) it backs off `RETRY_BACKOFF_SEC * 2^k`, recorded as the multiplier `2^k`. Any other request error stops it. `RetryLoop` is the imperative loop. `Run` is the recursive function it is proved equal to, and the properties are lemmas about `Run`.
- **Response relay** (`relay.dfy`). It builds the buffered reply (JSON, or the `{"_raw": text}` fallback, or raw bytes) and the 502 error envelope. `RelayStream` is the streaming relay: it passes chunks through unchanged, keeps a bounded preview counter, and calls `aclose()` once on every exit. The upstream body is a class `UpstreamBody` whose `closeCount` field counts the closes.
- **The forwarder** (`forward.dfy`). `PrepareRequest` does everything before the retry loop, and `PreparedAs` states what the request sent upstream is. `ForwardRequest` adds the loop and the reply shaping, with the correlation id looked up as the code does. `ForwardRequestCorrected` is the same forwarder with the corrected lookup (see Findings). The fresh id (`uuid4()`) and the transport outcomes are parameters.

Details of the code that the model follows exactly:

- The credential header is written *before* the copy loop. The loop still cannot overwrite it, because the credential's lower-cased name is in the sensitive set the loop skips.
- `Content-Type` defaults from the exact key `content-type`. A client header named exactly `Content-Type` is copied by the loop and overrides that default.
- The model-family test runs on `str(model)`. `ModelFamilyNeedsString` proves that only a string value can pass it.
- As written, the client's `X-Request-ID` is never used, because the server delivers header names in lower case (see Findings).

## Model

| member | source | states |
|---|---|---|
| `Settings.SensitiveKeys` | main.py:27 | The sensitive set holds `authorization`, `proxy-authorization` and the lower-cased credential header name, or the empty name when none is configured, and no other name. Every entry is lower-case. |
| `Headers.Redact` | main.py:49-50 | The logged copy has exactly the input's names. A sensitive name's value is the mask. Every other value is unchanged. |
| `Headers.RedactIdempotent` | main.py:49-50 | Redacting a redacted map changes nothing. |
| `Headers.RedactHidesSecrets` | main.py:49-50 | A sensitive header's value (other than the mask string itself) never appears in the logged copy. |
| `Headers.BuildForwardHeaders` | main.py:89-105 | Every forwardable client header is copied verbatim. Every other outbound name is `Content-Type` or the credential name. The credential name carries the configured key whenever one is set. `Content-Type` is the client's exact `Content-Type`, else the credential when the credential header has that name, else the client's `content-type`, else `application/json`. |
| `Headers.Passthrough` | main.py:199-204 | The streamed headers never contain `content-length`, `transfer-encoding` or `connection` in any case. They always carry `X-Request-ID` = the request id and a `Content-Type` (the upstream's, else the SSE default). Every other upstream header is kept verbatim and nothing else is added. |
| `Outbound.UpstreamUrl` | main.py:85-87 | The URL is base + path when the query is empty. Otherwise it is base + path + `?` + query. |
| `Outbound.UpstreamUrlInjective` | main.py:85-87 | Distinct query strings give distinct upstream URLs. |
| `Outbound.BufferedContent` | main.py:229 | The buffered request carries no content iff the method is GET or DELETE, and the body otherwise. |
| `Outbound.RequestIdAsWritten` | main.py:123-125 | The id is the non-empty value stored under the exact key `X-Request-ID` when there is one, and the fresh id otherwise. |
| `Outbound.ClientIdIgnoredAsWritten` | main.py:123-125 | When the client header names are lower-case, as the server delivers them, the as-written lookup always yields the fresh id. |
| `Outbound.ClientIdIgnoredExample` | main.py:123-125 | Concrete case: a client sending `x-request-id: abc` is given the fresh id. |
| `Outbound.RequestId` | main.py:125 | Corrected lookup: the id is the fresh id or the client's non-empty `x-request-id`. |
| `Outbound.RequestIdHonoursClient` | main.py:125 | For every header map, the corrected id is the client's non-empty `x-request-id` when one is sent and the fresh id otherwise. It is never empty when the fresh id is not. |
| `Normalize.ModelFamilyNeedsString` | main.py:135-138 | The `gpt-5` gate on `str(model).lower()` holds iff `model` is present, is a string, and lower-cases to a `gpt-5` prefix. |
| `Normalize.Rewrite` | main.py:139-149 | An existing `max_completion_tokens` leaves both other limits untouched. Otherwise `max_output_tokens` is moved (its key removed) in preference to `max_tokens`, and the value defaults to 128000 when neither exists. `temperature` is 1. No other key changes and no key other than these two is added. |
| `Normalize.RewriteIdempotent` | main.py:139-149 | Re-normalising a normalised payload changes nothing. |
| `Normalize.RewriteKeepsGate` | main.py:135-151 | A rewritten payload is non-empty and keeps both its model-family match and its `stream` flag. |
| `Normalize.NormalizeRequest` | main.py:131-155 | The block raises iff the body parses to a truthy non-object on the chat path. The body and headers leave unchanged unless the payload is a non-empty object, the path is exactly the chat path and the model is in the family. When all three hold, the body is the serialised rewrite and `Accept` is `text/event-stream` exactly when `stream` is `true`. |
| `Normalize.WantsStream` | main.py:171-175 | With streaming allowed, the stream relay is chosen iff the final body parses to an object whose `stream` is exactly boolean `true`. It raises iff the body is a truthy non-object. |
| `Normalize.NormalizedBodyIsFixedPoint` | main.py:131-175 | For a serialiser that round-trips, normalising the normalised body reproduces the same bytes. Stream detection on them agrees with the `Accept` decision. |
| `Retry.RetryLoop` | main.py:180-298 | The loop's result, attempt count and backoff multipliers are those of the reference run `Run`. |
| `RetryProperties.RunShape` | main.py:180-298 | From any attempt k, the run makes between k + 1 and MAX_RETRIES + 1 attempts, with one backoff fewer than the attempts made from k. Backoff i is 2^(k+i). Every attempt but the last failed retryably. A success is the last attempt's exchange. A give-up carries the last attempt's error, and a retryable one only on the final allowed attempt. |
| `RetryProperties.RetryPolicy` | main.py:180-298 | A call makes at most MAX_RETRIES + 1 attempts (none when MAX_RETRIES < 0), with attempts − 1 backoffs. Backoff i is 2^i, so each is double the previous. The loop gives up without an error iff no attempt ran. |
| `RetryProperties.CompletedExchangeReturns` | main.py:184-281 | The call succeeds iff its last attempt completed an exchange, and it returns that exchange whatever its status. |
| `RetryProperties.RetriesThenSucceeds` | main.py:283-294 | When the transport fails retryably MAX_RETRIES times and then completes, the call succeeds after MAX_RETRIES + 1 attempts with backoffs 1, 2, 4, … |
| `RetryProperties.AlwaysRetryableExhausts` | main.py:283-295 | When every attempt fails retryably, exactly MAX_RETRIES + 1 attempts and MAX_RETRIES backoffs occur, and the call gives up with the last error. |
| `RetryProperties.FatalErrorStops` | main.py:296-298 | A non-retryable error at attempt j ends the call there with j backoffs (none after it) and that error. |
| `Text.ContainsIffOccurs` | main.py:234 | The substring test used for `application/json` holds iff the needle occurs at some position. |
| `Text.DecimalRoundTrip` | main.py:256 | `str()` of an integer parses back to that integer and starts with a digit or `-`. |
| `Relay.BufferedReply` | main.py:232-281 | The status is preserved and the headers are exactly `X-Upstream-Status`, the decimal text `str()` gives for the status (which parses back to it), and `X-Request-ID`. A content type containing `application/json` gives the body as the HTTP client's own JSON parser reads it, or `{"_raw": text}` when that parser fails. Any other content type gives the raw bytes under that media type. |
| `Relay.ErrorEnvelope` | main.py:300-310 | The reply is status 502 with only `X-Request-ID` as a header. Its body is `{"error": {type "proxy_error", message, request_id, upstream}}`. The message is the last error's `Class: detail`, and it is `Unknown upstream error` iff there was no error. |
| `Relay.UpstreamBody.Close` | main.py:223 | Each `aclose()` counts one release of the upstream connection. |
| `Relay.RelayStream` | main.py:206-223 | The client receives the upstream chunks unchanged and in order, up to its disconnect. The upstream is closed exactly once on every exit (drained, client gone, upstream failure). When previewing is on, `logged` ends at min(total bytes, LOG_STREAM_MAX_BYTES), and 0 otherwise. The logged snippets are exactly the first `logged` bytes of the stream. |
| `Forward.ShapeReply` | main.py:184-310 | Every reply carries the request id. A completed exchange keeps its status, and a give-up is a 502. The reply streams iff streaming was chosen and an exchange completed. |
| `Forward.PrepareRequest` | main.py:122-175 | The request log is the redacted client headers, and it is absent exactly when the normalisation block raises. The call fails iff that block raises or stream detection raises. On success the request is `PreparedAs`: the method and upstream URL; streaming iff allowed and the final body's `stream` is `true`; the final body as content when streaming, none for a buffered GET/DELETE. Its headers are the forwardable client headers verbatim, the credential with its configured key, the `Content-Type` rule, and `Accept: text/event-stream` when normalisation set it, and no other name, so no hop-by-hop or sensitive client header goes out. |
| `Forward.ForwardRequest` | main.py:111-310 | Everything `PrepareRequest` states holds for the request sent and the request log. A handler that raises makes no attempt. Otherwise the attempts and backoffs are those of the retry policy, and the reply is the shaped reply for the loop's result carrying the as-written id. On the lower-case names the server delivers, that id is always the fresh one. |
| `Forward.ForwardRequestCorrected` | main.py:111-310 | As `ForwardRequest`, but the reply carries the corrected id, so a client's non-empty `x-request-id` comes back unchanged. |

## Left out

- Framework plumbing is not modelled: the FastAPI app, its routes, CORS middleware and the start-up/shutdown of the pooled HTTP client (main.py:61-80, main.py:316-381). This includes `GET /`, `GET /health` (`health_root`) and the static `/v1/models` list.
- Environment loading (main.py:16-27) is replaced by the immutable `Settings.Config` record. Its float values `REQUEST_TIMEOUT` and `RETRY_BACKOFF_SEC` are not modelled. A backoff is recorded as its multiplier `2^k` of the base, and `_sleep` is not executed.
- `Forward.ForwardRequest`, `Forward.ForwardRequestCorrected`, `Forward.PrepareRequest`, `Headers.BuildForwardHeaders`: require a credential header name whenever a credential key is set. Without a name the code writes a dict entry keyed by `None`, which the HTTP client cannot send.
- `time.time()` durations, `uuid.uuid4()` (a parameter here), logger formatting and the `json.dumps` text of log records are not modelled. Of the logs, only the redacted client header map of the request log and the stream preview snippets are modelled. The response logs pass response headers through the same `Redact`.
- JSON parsing and serialisation are functions passed in (`Json.Codec`), not implementations. The proxy's own request-body parser (strict UTF-8) and the HTTP client's response parser (which detects the encoding) are separate fields, since they accept different bytes. JSON numbers are integers: floats are not modelled. Python's key order in a `dict` (and so in `json.dumps` output) is not modelled, because objects are maps.
- `Json.PyStr`: renders `str()` of a list or object only as its opening bracket, the one character a prefix test can see.
- The HTTP client's content decoding is not modelled. A streamed chunk is the bytes its iterator yields, and the relayed headers are the upstream's as reported.
- Lower-casing is ASCII-only. Python's `str.lower()` also folds non-ASCII letters.
- The HTTP client's header object looks names up case-insensitively. The model treats upstream response headers as a map with the lower-case names the client reports and looks up `content-type` exactly. Repeated header lines collapse to one entry, as in a `dict`.
- Asynchronous scheduling and cancellation timing are not modelled. A client disconnect during streaming is a number of chunks after which the client stops reading. An upstream read failure is a flag saying that reading past the last chunk fails. In buffered mode the body is read whole, and a read failure there is an attempt's transport error. The model's relay always runs its loop, so a client that leaves before the first chunk (`leaveAfter == Some(0)`) still gets one close. In the code the closing `finally` sits inside the generator, so if the client is gone before the generator is first advanced, or the response start fails, `aclose()` never runs; that case is not modelled.
- An exception raised by the handler (`payload.get` on a truthy non-object) is the `Raised` outcome. The framework's resulting 500 response is not modelled. Failures of the logging calls themselves are not modelled.

## Findings

| source | as written | input that shows it | evidently intended | confidence | as-written member | corrected member |
|---|---|---|---|---|---|---|
| main.py:123-125 | `dict(request.headers).get("X-Request-ID")` is an exact-key lookup on a dict whose header names the server has already lower-cased | a request carrying `X-Request-ID: abc`, handed to the handler as `x-request-id: abc`, is logged and answered with a fresh id instead of `abc` | honour the client's id, as the `/v1/models` handler does with its case-insensitive `request.headers.get("X-Request-ID")` (main.py:350) | high, not executed | `Outbound.RequestIdAsWritten` (with `Outbound.ClientIdIgnoredAsWritten`, used by `Forward.ForwardRequest`) | `Outbound.RequestId` (with `Outbound.RequestIdHonoursClient`, used by `Forward.ForwardRequestCorrected`) |
