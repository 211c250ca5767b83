/**
 * Header handling: masking sensitive values for the logs, building the header
 * set sent upstream, and filtering the upstream headers relayed to a
 * streaming client. Names are compared after ASCII lower-casing but stored
 * exactly as they arrived.
 */
module Headers {
  import opened Wrappers
  import opened Text
  import opened Settings

  const Mask := "***REDACTED***"

  /** Connection-level headers that are never forwarded upstream. */
  const HopByHop: set<string> :=
    {"content-length", "host", "connection", "keep-alive", "transfer-encoding", "te", "trailer", "upgrade"}

  /** Upstream headers that a streaming relay does not pass on. */
  const StreamDropped: set<string> := {"content-length", "transfer-encoding", "connection"}

  const DefaultContentType := "application/json"
  const DefaultStreamContentType := "text/event-stream; charset=utf-8"

  predicate Sensitive(cfg: Config, name: string)
  {
    Lower(name) in SensitiveKeys(cfg)
  }

  /** A client header that the sanitizer copies upstream. */
  predicate Forwardable(cfg: Config, name: string)
  {
    Lower(name) !in HopByHop && !Sensitive(cfg, name)
  }

  /** The configured credential header's name, when the proxy injects it. */
  predicate IsCredentialName(cfg: Config, name: string)
  {
    HasCredential(cfg) && cfg.subscriptionName.Some? && name == cfg.subscriptionName.value
  }

  /**
   * The copy of a header mapping written to the logs: same names, every
   * sensitive value masked, every other value untouched.
   */
  function Redact(cfg: Config, headers: HeaderMap): (r: HeaderMap)
    ensures r.Keys == headers.Keys
    ensures forall k :: k in r && Sensitive(cfg, k) ==> r[k] == Mask
    ensures forall k :: k in r && !Sensitive(cfg, k) ==> r[k] == headers[k]
  {
    map k | k in headers :: if Sensitive(cfg, k) then Mask else headers[k]
  }

  /** Masking a masked mapping changes nothing. */
  lemma RedactIdempotent(cfg: Config, headers: HeaderMap)
    ensures Redact(cfg, Redact(cfg, headers)) == Redact(cfg, headers)
  {
  }

  /** A secret value that is not the mask itself never reaches a log record. */
  lemma RedactHidesSecrets(cfg: Config, headers: HeaderMap, secret: string)
    requires secret != Mask
    ensures forall k :: k in headers && Sensitive(cfg, k) ==> Redact(cfg, headers)[k] != secret
  {
  }

  /**
   * The outbound `Content-Type`: a client header named exactly
   * `Content-Type` that is copied wins; else the credential, when its header
   * has that very name; else the default taken from the client's
   * `content-type`, else `application/json`.
   */
  function OutboundContentType(cfg: Config, incoming: HeaderMap): string
  {
    if "Content-Type" in incoming && Forwardable(cfg, "Content-Type") then incoming["Content-Type"]
    else if IsCredentialName(cfg, "Content-Type") then cfg.subscriptionKey.value
    else Lookup(incoming, "content-type", DefaultContentType)
  }

  /**
   * The outbound header set: a `Content-Type` default, the injected
   * credential, then every forwardable client header copied verbatim (the
   * copy loop runs over the client's headers in any order; since their names
   * are distinct, the result does not depend on that order).
   */
  method BuildForwardHeaders(cfg: Config, incoming: HeaderMap) returns (out: HeaderMap)
    requires WellFormed(cfg)
    ensures forall k :: k in incoming && Forwardable(cfg, k) ==> k in out && out[k] == incoming[k]
    ensures forall k :: k in out && k != "Content-Type" && !IsCredentialName(cfg, k) ==>
      k in incoming && Forwardable(cfg, k) && out[k] == incoming[k]
    ensures HasCredential(cfg) ==>
      cfg.subscriptionName.value in out && out[cfg.subscriptionName.value] == cfg.subscriptionKey.value
    ensures "Content-Type" in out && out["Content-Type"] == OutboundContentType(cfg, incoming)
  {
    out := map["Content-Type" := Lookup(incoming, "content-type", DefaultContentType)];
    if HasCredential(cfg) {
      out := out[cfg.subscriptionName.value := cfg.subscriptionKey.value];
    }
    var todo := incoming.Keys;
    ghost var done: set<string> := {};
    while todo != {}
      invariant todo + done == incoming.Keys && todo !! done
      invariant forall k :: k in done && Forwardable(cfg, k) ==> k in out && out[k] == incoming[k]
      invariant forall k :: k in out && k != "Content-Type" && !IsCredentialName(cfg, k) ==>
        k in done && Forwardable(cfg, k) && out[k] == incoming[k]
      invariant HasCredential(cfg) ==>
        cfg.subscriptionName.value in out && out[cfg.subscriptionName.value] == cfg.subscriptionKey.value
      invariant "Content-Type" in out
      invariant out["Content-Type"] ==
        if "Content-Type" in done && Forwardable(cfg, "Content-Type") then incoming["Content-Type"]
        else if IsCredentialName(cfg, "Content-Type") then cfg.subscriptionKey.value
        else Lookup(incoming, "content-type", DefaultContentType)
      decreases todo
    {
      var k :| k in todo;
      var kl := Lower(k);
      if kl !in HopByHop && kl !in SensitiveKeys(cfg) {
        out := out[k := incoming[k]];
      }
      todo := todo - {k};
      done := done + {k};
    }
  }

  /**
   * Headers relayed to a streaming client: every upstream header except the
   * three framing ones, a `Content-Type` (the upstream's, else the SSE
   * default) and the correlation id.
   */
  function Passthrough(upstream: HeaderMap, requestId: string): (r: HeaderMap)
    ensures forall k :: k in r ==> Lower(k) !in StreamDropped
    ensures "X-Request-ID" in r && r["X-Request-ID"] == requestId
    ensures "Content-Type" in r
    ensures "Content-Type" in upstream ==>
      r["Content-Type"] == upstream["Content-Type"]
    ensures "Content-Type" !in upstream ==>
      r["Content-Type"] == Lookup(upstream, "content-type", DefaultStreamContentType)
    ensures forall k :: k in upstream && Lower(k) !in StreamDropped && k != "X-Request-ID" ==>
      k in r && r[k] == upstream[k]
    ensures forall k :: k in r && k != "Content-Type" && k != "X-Request-ID" ==>
      k in upstream && r[k] == upstream[k]
  {
    var kept := map k | k in upstream && Lower(k) !in StreamDropped :: upstream[k];
    var typed :=
      if "Content-Type" in kept then kept
      else kept["Content-Type" := Lookup(upstream, "content-type", DefaultStreamContentType)];
    typed["X-Request-ID" := requestId]
  }
}
