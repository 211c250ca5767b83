/**
 * One forwarded call, end to end: sanitize the headers, pick the correlation
 * id, normalise the payload, log the redacted request headers, detect
 * streaming, run the retry loop, and shape the client's response.
 */
module Forward {
  import opened Wrappers
  import opened Text
  import opened Settings
  import opened Json
  import opened Headers
  import opened Normalize
  import opened Outbound
  import opened Transport
  import opened Retry
  import opened Relay

  /** The request sent on every attempt of the call. */
  datatype OutboundRequest = OutboundRequest(verb: string, url: string, headers: HeaderMap, content: Option<Bytes>)

  /** The client gets a reply, or the handler raised before the retry loop. */
  datatype ForwardOutcome = Replied(reply: ClientReply) | Raised(error: PayloadError)

  /**
   * The response for the retry loop's result: the streaming relay's headers
   * or the buffered reply after a completed exchange, the 502 envelope
   * otherwise; every one of them carries the correlation id.
   */
  function ShapeReply(codec: Codec, streaming: bool, result: RetryResult, requestId: string, url: string)
    : (r: ClientReply)
    ensures "X-Request-ID" in r.headers && r.headers["X-Request-ID"] == requestId
    ensures result.Succeeded? ==> r.status == result.reply.status
    ensures result.GaveUp? ==> r.status == 502
    ensures r.StreamReply? <==> streaming && result.Succeeded?
  {
    match result
    case Succeeded(reply) =>
      if streaming then StreamReply(reply.status, Passthrough(reply.headers, requestId), reply)
      else BufferedReply(codec, reply, requestId)
    case GaveUp(last) => ErrorEnvelope(last, requestId, url)
  }

  /**
   * The request sent upstream, as the handler builds it before its retry
   * loop: the method and URL; the content (the final body when streaming,
   * else none for GET and DELETE); streaming chosen iff it is allowed and the
   * final body's `stream` is `true`; and the headers. Those are the
   * forwardable client headers verbatim, the injected credential, the
   * `Content-Type` rule, and `Accept: text/event-stream` when normalisation
   * asked for it; nothing else, so no hop-by-hop or sensitive client header
   * goes out.
   */
  ghost predicate PreparedAs(
    cfg: Config, codec: Codec, verb: string, path: string, query: string,
    incoming: HeaderMap, body: Bytes, allowStream: bool, request: OutboundRequest, streaming: bool)
  {
    var finalBody := FinalBody(codec, path, body);
    var accept := SetsStreamAccept(codec, path, body);
    var sent := request.headers;
    && request.verb == verb
    && request.url == UpstreamUrl(cfg, path, query)
    && (streaming <==> WantsStream(allowStream, codec, finalBody) == Success(true))
    && request.content == (if streaming then Some(finalBody) else BufferedContent(verb, finalBody))
    && (accept ==> "Accept" in sent && sent["Accept"] == StreamAccept)
    && "Content-Type" in sent && sent["Content-Type"] == OutboundContentType(cfg, incoming)
    && (forall k :: IsCredentialName(cfg, k) && !(accept && k == "Accept") ==>
          k in sent && sent[k] == cfg.subscriptionKey.value)
    && (forall k :: k in incoming && Forwardable(cfg, k) && !(accept && k == "Accept") ==>
          k in sent && sent[k] == incoming[k])
    && (forall k :: k in sent && k != "Content-Type" && !IsCredentialName(cfg, k) && !(accept && k == "Accept") ==>
          k in incoming && Forwardable(cfg, k) && sent[k] == incoming[k])
  }

  /**
   * Everything the forwarder does before its retry loop: sanitize the
   * headers, normalise the payload, log the redacted client headers and
   * detect streaming. It fails where the handler raises: in the
   * normalisation block, before the request is logged, or in stream
   * detection, after it.
   */
  method PrepareRequest(
    cfg: Config, codec: Codec, verb: string, path: string, query: string,
    incoming: HeaderMap, body: Bytes, allowStream: bool)
    returns (prepared: Result<OutboundRequest, PayloadError>, requestLog: Option<HeaderMap>, streaming: bool)
    requires WellFormed(cfg)
    ensures requestLog.None? <==> RaisesOnPayload(codec.loads(body), path)
    ensures requestLog.Some? ==> requestLog.value == Redact(cfg, incoming)
    ensures prepared.Failure? <==>
      RaisesOnPayload(codec.loads(body), path) || WantsStream(allowStream, codec, FinalBody(codec, path, body)).Failure?
    ensures prepared.Success? ==>
      PreparedAs(cfg, codec, verb, path, query, incoming, body, allowStream, prepared.value, streaming)
  {
    var url := UpstreamUrl(cfg, path, query);
    var headers := BuildForwardHeaders(cfg, incoming);
    requestLog, streaming := None, false;

    var normalized := NormalizeRequest(codec, path, body, headers);
    if normalized.Failure? {
      return Failure(normalized.error), requestLog, streaming;
    }
    var finalBody := normalized.value.body;
    assert finalBody == FinalBody(codec, path, body);

    requestLog := Some(Redact(cfg, incoming));

    var wants := WantsStream(allowStream, codec, finalBody);
    if wants.Failure? {
      return Failure(wants.error), requestLog, streaming;
    }
    streaming := wants.value;
    var content := if streaming then Some(finalBody) else BufferedContent(verb, finalBody);
    prepared := Success(OutboundRequest(verb, url, normalized.value.headers, content));
  }

  /**
   * The forwarder as written. The transport is given as the outcome of each
   * attempt and the fresh id stands for `uuid4()`. Outputs: the outcome, the
   * request sent upstream on every attempt, the header map written to the
   * request log, the attempts made, the backoff multipliers slept, and
   * whether the streaming relay was chosen. The correlation id is the
   * as-written lookup, so on the lower-case names the server delivers it is
   * always the fresh id.
   */
  method ForwardRequest(
    cfg: Config, codec: Codec, verb: string, path: string, query: string,
    incoming: HeaderMap, body: Bytes, freshId: string, allowStream: bool,
    transport: nat -> Outcome)
    returns (outcome: ForwardOutcome, request: Option<OutboundRequest>, requestLog: Option<HeaderMap>,
             attempts: nat, backoffs: seq<nat>, streaming: bool)
    requires WellFormed(cfg)
    ensures requestLog.None? <==> RaisesOnPayload(codec.loads(body), path)
    ensures requestLog.Some? ==> requestLog.value == Redact(cfg, incoming)
    ensures outcome.Raised? <==> request.None?
    ensures outcome.Raised? <==>
      RaisesOnPayload(codec.loads(body), path) || WantsStream(allowStream, codec, FinalBody(codec, path, body)).Failure?
    ensures outcome.Raised? ==> attempts == 0 && backoffs == []
    ensures request.Some? ==>
      PreparedAs(cfg, codec, verb, path, query, incoming, body, allowStream, request.value, streaming)
    ensures outcome.Replied? ==>
      var run := Run(cfg.maxRetries, transport, 0, None);
      && attempts == run.attempts && backoffs == run.backoffs
      && outcome.reply == ShapeReply(codec, streaming, run.result, RequestIdAsWritten(incoming, freshId), request.value.url)
    ensures outcome.Replied? && LowerCaseNames(incoming) ==> outcome.reply.headers["X-Request-ID"] == freshId
  {
    var requestId := RequestIdAsWritten(incoming, freshId);
    var prepared;
    prepared, requestLog, streaming := PrepareRequest(cfg, codec, verb, path, query, incoming, body, allowStream);
    if prepared.Failure? {
      return Raised(prepared.error), None, requestLog, 0, [], streaming;
    }
    request := Some(prepared.value);

    var result;
    result, attempts, backoffs := RetryLoop(cfg.maxRetries, transport);
    outcome := Replied(ShapeReply(codec, streaming, result, requestId, prepared.value.url));
    if LowerCaseNames(incoming) {
      ClientIdIgnoredAsWritten(incoming, freshId);
    }
  }

  /**
   * The forwarder with the corrected correlation id: identical to
   * `ForwardRequest` except that a client's non-empty `x-request-id` is
   * honoured.
   */
  method ForwardRequestCorrected(
    cfg: Config, codec: Codec, verb: string, path: string, query: string,
    incoming: HeaderMap, body: Bytes, freshId: string, allowStream: bool,
    transport: nat -> Outcome)
    returns (outcome: ForwardOutcome, request: Option<OutboundRequest>, requestLog: Option<HeaderMap>,
             attempts: nat, backoffs: seq<nat>, streaming: bool)
    requires WellFormed(cfg)
    ensures requestLog.None? <==> RaisesOnPayload(codec.loads(body), path)
    ensures requestLog.Some? ==> requestLog.value == Redact(cfg, incoming)
    ensures outcome.Raised? <==> request.None?
    ensures outcome.Raised? <==>
      RaisesOnPayload(codec.loads(body), path) || WantsStream(allowStream, codec, FinalBody(codec, path, body)).Failure?
    ensures outcome.Raised? ==> attempts == 0 && backoffs == []
    ensures request.Some? ==>
      PreparedAs(cfg, codec, verb, path, query, incoming, body, allowStream, request.value, streaming)
    ensures outcome.Replied? ==>
      var run := Run(cfg.maxRetries, transport, 0, None);
      && attempts == run.attempts && backoffs == run.backoffs
      && outcome.reply == ShapeReply(codec, streaming, run.result, RequestId(incoming, freshId), request.value.url)
    ensures outcome.Replied? && "x-request-id" in incoming && incoming["x-request-id"] != "" ==>
      outcome.reply.headers["X-Request-ID"] == incoming["x-request-id"]
  {
    var requestId := RequestId(incoming, freshId);
    RequestIdHonoursClient(incoming, freshId);
    var prepared;
    prepared, requestLog, streaming := PrepareRequest(cfg, codec, verb, path, query, incoming, body, allowStream);
    if prepared.Failure? {
      return Raised(prepared.error), None, requestLog, 0, [], streaming;
    }
    request := Some(prepared.value);

    var result;
    result, attempts, backoffs := RetryLoop(cfg.maxRetries, transport);
    outcome := Replied(ShapeReply(codec, streaming, result, requestId, prepared.value.url));
  }
}
