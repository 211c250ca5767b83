/**
 * What one attempt against the upstream can produce: a completed HTTP
 * exchange (whatever its status) or a transport error of a named class.
 */
module Transport {
  import opened Text

  /** The request-error classes the retry loop tells apart. */
  datatype ErrorKind =
    | ConnectError
    | ReadTimeout
    | RemoteProtocolError
    | OtherRequestError(className: string)  // any other httpx.RequestError

  datatype TransportError = TransportError(kind: ErrorKind, detail: string)

  /** The three classes caught by the retrying `except` clause. */
  predicate Retryable(kind: ErrorKind)
  {
    kind.ConnectError? || kind.ReadTimeout? || kind.RemoteProtocolError?
  }

  function ClassName(kind: ErrorKind): string
  {
    match kind
    case ConnectError => "ConnectError"
    case ReadTimeout => "ReadTimeout"
    case RemoteProtocolError => "RemoteProtocolError"
    case OtherRequestError(name) => name
  }

  /** An error's description: its class name, a colon and a space, then its detail. */
  function Describe(e: TransportError): string
  {
    ClassName(e.kind) + ": " + e.detail
  }

  /**
   * An upstream response: status, headers (names as the client library
   * reports them, lower-case), the body as the chunks it arrives in, and
   * whether reading on past the last chunk fails.
   */
  datatype UpstreamReply = UpstreamReply(
    status: int,
    headers: HeaderMap,
    chunks: seq<Bytes>,
    failsAfterChunks: bool)

  datatype Outcome = Completed(reply: UpstreamReply) | Failed(error: TransportError)
}
