/**
 * Turning the retry loop's result into the client's response: the buffered
 * reply (JSON re-encoded or raw bytes), the 502 error envelope, and the
 * streaming relay that passes upstream chunks through and releases the
 * upstream connection on every exit.
 */
module Relay {
  import opened Wrappers
  import opened Text
  import opened Settings
  import opened Json
  import opened Transport

  const JsonMediaType := "application/json"

  /** What the client receives. A streaming reply hands its body to `RelayStream`. */
  datatype ClientReply =
    | JsonReply(status: int, content: Value, headers: HeaderMap)
    | RawReply(status: int, raw: Bytes, mediaType: string, headers: HeaderMap)
    | StreamReply(status: int, headers: HeaderMap, upstream: UpstreamReply)

  /** `{"_raw": text}`: the stand-in for a JSON body that does not parse. */
  function RawWrapper(text: string): Value
  {
    Obj(map["_raw" := Str(text)])
  }

  /**
   * The buffered reply: the upstream status, exactly the two headers
   * `X-Upstream-Status` and `X-Request-ID`, and either the parsed JSON body
   * (or its `_raw` wrapper) when the content type mentions
   * `application/json`, or the raw bytes under the upstream's content type.
   */
  function BufferedReply(codec: Codec, reply: UpstreamReply, requestId: string): (r: ClientReply)
    ensures r.status == reply.status
    ensures r.headers.Keys == {"X-Upstream-Status", "X-Request-ID"}
    ensures r.headers["X-Request-ID"] == requestId
    ensures r.headers["X-Upstream-Status"] == DecimalString(reply.status)
    ensures ParseDecimal(r.headers["X-Upstream-Status"]) == reply.status
    ensures var contentType := Lookup(reply.headers, "content-type", "");
      && (Contains(contentType, JsonMediaType) ==>
            r.JsonReply? &&
            r.content == match codec.responseJson(Flatten(reply.chunks))
                         case Some(v) => v
                         case None => RawWrapper(codec.decode(Flatten(reply.chunks))))
      && (!Contains(contentType, JsonMediaType) ==>
            r.RawReply? && r.raw == Flatten(reply.chunks) && r.mediaType == contentType)
  {
    var contentType := Lookup(reply.headers, "content-type", "");
    var content := Flatten(reply.chunks);
    var headers := map["X-Upstream-Status" := DecimalString(reply.status), "X-Request-ID" := requestId];
    DecimalRoundTrip(reply.status);
    if Contains(contentType, JsonMediaType) then
      var body := match codec.responseJson(content)
        case Some(v) => v
        case None => RawWrapper(codec.decode(content));
      JsonReply(reply.status, body, headers)
    else
      RawReply(reply.status, content, contentType, headers)
  }

  function ErrorMessage(last: Option<TransportError>): string
  {
    match last
    case Some(e) => Describe(e)
    case None => "Unknown upstream error"
  }

  /**
   * The proxy's error envelope: status 502, the correlation id as the only
   * header, and `{"error": {"type": "proxy_error", "message", "request_id",
   * "upstream"}}` carrying the last transport error's description.
   */
  function ErrorEnvelope(last: Option<TransportError>, requestId: string, url: string): (r: ClientReply)
    ensures r.JsonReply? && r.status == 502
    ensures r.headers == map["X-Request-ID" := requestId]
    ensures r.content.Obj? && r.content.fields.Keys == {"error"}
    ensures var error := r.content.fields["error"];
      && error.Obj?
      && error.fields.Keys == {"type", "message", "request_id", "upstream"}
      && error.fields["type"] == Str("proxy_error")
      && error.fields["request_id"] == Str(requestId)
      && error.fields["upstream"] == Str(url)
      && (last.None? <==> error.fields["message"] == Str("Unknown upstream error"))
      && (last.Some? ==> error.fields["message"] == Str(Describe(last.value)))
  {
    var error := map[
      "type" := Str("proxy_error"),
      "message" := Str(ErrorMessage(last)),
      "request_id" := Str(requestId),
      "upstream" := Str(url)];
    assert ':' !in "Unknown upstream error";
    assert last.Some? ==> Describe(last.value)[|ClassName(last.value.kind)|] == ':';
    JsonReply(502, Obj(map["error" := Obj(error)]), map["X-Request-ID" := requestId])
  }

  /**
   * The upstream response whose body has not been read yet; `closeCount`
   * counts the calls of `aclose()`.
   */
  class UpstreamBody {
    const chunks: seq<Bytes>
    const failsAfterChunks: bool
    var closeCount: nat

    constructor (reply: UpstreamReply)
      ensures chunks == reply.chunks && failsAfterChunks == reply.failsAfterChunks
      ensures closeCount == 0
    {
      chunks := reply.chunks;
      failsAfterChunks := reply.failsAfterChunks;
      closeCount := 0;
    }

    /** Releases the upstream connection. */
    method Close()
      modifies this
      ensures closeCount == old(closeCount) + 1
    {
      closeCount := closeCount + 1;
    }
  }

  /** How the relay ended. */
  datatype StreamEnd = Drained | ClientLeft | UpstreamFailed

  /** LOG_BODIES and a positive LOG_STREAM_MAX_BYTES turn the stream preview on. */
  predicate PreviewOn(cfg: Config)
  {
    cfg.logBodies && cfg.logStreamMaxBytes > 0
  }

  /**
   * The number of chunks the client receives: all of them, unless it
   * disconnects after `leaveAfter` of them first.
   */
  function Delivered(chunkCount: nat, leaveAfter: Option<nat>): (n: nat)
    ensures n <= chunkCount
    ensures leaveAfter.None? ==> n == chunkCount
    ensures leaveAfter.Some? ==> n == Min(chunkCount, leaveAfter.value)
  {
    if leaveAfter.Some? && leaveAfter.value < chunkCount then leaveAfter.value else chunkCount
  }

  /**
   * The `iter_bytes` generator, run until the client stops reading: every
   * chunk goes out unchanged and in order; while the preview is on, the
   * first LOG_STREAM_MAX_BYTES bytes of the stream are logged as per-chunk
   * snippets; the upstream is closed exactly once, whether the stream
   * drained, the client left, or reading the upstream failed.
   */
  method RelayStream(upstream: UpstreamBody, cfg: Config, leaveAfter: Option<nat>)
    returns (sent: seq<Bytes>, logged: nat, previews: seq<Bytes>, end: StreamEnd)
    modifies upstream
    ensures upstream.closeCount == old(upstream.closeCount) + 1
    ensures sent == upstream.chunks[..Delivered(|upstream.chunks|, leaveAfter)]
    ensures end == if Delivered(|upstream.chunks|, leaveAfter) < |upstream.chunks| then ClientLeft
                   else if upstream.failsAfterChunks then UpstreamFailed
                   else Drained
    ensures logged == if PreviewOn(cfg) then Min(|Flatten(sent)|, cfg.logStreamMaxBytes) else 0
    ensures Flatten(previews) == Flatten(sent)[..logged]
  {
    var chunks := upstream.chunks;
    var n := Delivered(|chunks|, leaveAfter);
    sent, logged, previews := [], 0, [];
    var i := 0;
    while i < n
      invariant 0 <= i <= n
      invariant unchanged(upstream)
      invariant sent == chunks[..i]
      invariant logged == if PreviewOn(cfg) then Min(|Flatten(sent)|, cfg.logStreamMaxBytes) else 0
      invariant logged <= |Flatten(sent)|
      invariant Flatten(previews) == Flatten(sent)[..logged]
    {
      var chunk := chunks[i];
      FlattenSnoc(sent, chunk);
      if cfg.logBodies && cfg.logStreamMaxBytes > 0 && logged < cfg.logStreamMaxBytes {
        var take := Min(|chunk|, cfg.logStreamMaxBytes - logged);
        FlattenSnoc(previews, chunk[..take]);
        assert Flatten(sent + [chunk])[..logged + take] == Flatten(sent) + chunk[..take];
        previews := previews + [chunk[..take]];
        logged := logged + take;
      }
      sent := sent + [chunk];
      i := i + 1;
    }
    if n < |chunks| {
      end := ClientLeft;
    } else if upstream.failsAfterChunks {
      end := UpstreamFailed;
    } else {
      end := Drained;
    }
    // the `finally` clause: every exit path passes here exactly once
    upstream.Close();
  }
}
