/**
 * The outbound request's URL and content, and the correlation id of a call.
 */
module Outbound {
  import opened Wrappers
  import opened Text
  import opened Settings

  const RequestIdHeader := "X-Request-ID"

  /** The upstream URL: base and path, then `?` and the query when there is one. */
  function UpstreamUrl(cfg: Config, path: string, query: string): (url: string)
    ensures BaseText(cfg) + path <= url
    ensures query == "" <==> url == BaseText(cfg) + path
    ensures query != "" ==> url[|BaseText(cfg) + path|..] == "?" + query
  {
    var base := BaseText(cfg) + path;
    if query != "" then base + "?" + query else base
  }

  /** Different query strings never produce the same upstream URL. */
  lemma UpstreamUrlInjective(cfg: Config, path: string, q1: string, q2: string)
    requires UpstreamUrl(cfg, path, q1) == UpstreamUrl(cfg, path, q2)
    ensures q1 == q2
  {
    var n := |BaseText(cfg) + path|;
    if q1 != "" && q2 != "" {
      assert "?" + q1 == UpstreamUrl(cfg, path, q1)[n..] == "?" + q2;
      assert q1 == ("?" + q1)[1..] && q2 == ("?" + q2)[1..];
    }
  }

  /** The buffered path sends no content for GET and DELETE, the body otherwise. */
  function BufferedContent(verb: string, body: Bytes): (content: Option<Bytes>)
    ensures content.None? <==> verb == "GET" || verb == "DELETE"
    ensures content.Some? ==> content.value == body
  {
    if verb in {"GET", "DELETE"} then None else Some(body)
  }

  /**
   * The correlation id as written: an exact-key lookup of `X-Request-ID` in
   * the plain-dict copy of the client's headers, an empty value counting as
   * absent, else the fresh id.
   */
  function RequestIdAsWritten(incoming: HeaderMap, freshId: string): (id: string)
    ensures RequestIdHeader in incoming && incoming[RequestIdHeader] != "" ==> id == incoming[RequestIdHeader]
    ensures (RequestIdHeader !in incoming || incoming[RequestIdHeader] == "") ==> id == freshId
  {
    if RequestIdHeader in incoming && incoming[RequestIdHeader] != "" then incoming[RequestIdHeader] else freshId
  }

  /**
   * The server hands the handler header names in lower case, so the
   * exact-key lookup above never finds the client's id: whatever the client
   * sent, the fresh id is used.
   */
  lemma ClientIdIgnoredAsWritten(incoming: HeaderMap, freshId: string)
    requires LowerCaseNames(incoming)
    ensures RequestIdAsWritten(incoming, freshId) == freshId
  {
    assert Lower(RequestIdHeader)[0] == 'x' != RequestIdHeader[0];
  }

  /** A concrete instance: a client that sends `X-Request-ID: abc`. */
  lemma ClientIdIgnoredExample()
    ensures RequestIdAsWritten(map["x-request-id" := "abc"], "fresh") == "fresh"
  {
  }

  /**
   * The correlation id as intended: the client's `X-Request-ID` header under
   * the lower-case name the server delivers, an empty value counting as
   * absent, else the fresh id.
   */
  function RequestId(incoming: HeaderMap, freshId: string): (id: string)
    ensures id == freshId || ("x-request-id" in incoming && id == incoming["x-request-id"] != "")
  {
    var given := Lookup(incoming, "x-request-id", "");
    if given != "" then given else freshId
  }

  /** The intended id honours a non-empty client id and is never empty when the fresh one is not. */
  lemma RequestIdHonoursClient(incoming: HeaderMap, freshId: string)
    ensures "x-request-id" in incoming && incoming["x-request-id"] != "" ==>
      RequestId(incoming, freshId) == incoming["x-request-id"]
    ensures ("x-request-id" !in incoming || incoming["x-request-id"] == "") ==>
      RequestId(incoming, freshId) == freshId
    ensures freshId != "" ==> RequestId(incoming, freshId) != ""
  {
  }
}
