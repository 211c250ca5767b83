/**
 * The process-wide configuration, read once from the environment at start-up
 * and never changed afterwards; the model receives it as an immutable record.
 */
module Settings {
  import opened Wrappers
  import opened Text

  datatype Config = Config(
    subscriptionName: Option<string>,  // GENAI_SUBSCRIPTION_NAME: the credential header's name
    subscriptionKey: Option<string>,   // GENAI_API_KEY: the credential itself
    baseUrl: Option<string>,           // GENAI_BASE_URL
    maxRetries: int,                   // MAX_RETRIES (parsed with int(), so possibly negative)
    logBodies: bool,                   // LOG_BODIES
    logStreamMaxBytes: int)            // LOG_STREAM_MAX_BYTES

  /** A credential is configured and non-empty. */
  predicate HasCredential(cfg: Config)
  {
    cfg.subscriptionKey.Some? && cfg.subscriptionKey.value != ""
  }

  /** A configured credential comes with the name of the header that carries it. */
  predicate WellFormed(cfg: Config)
  {
    HasCredential(cfg) ==> cfg.subscriptionName.Some?
  }

  /** `str(GENAI_BASE_URL)`: an unset base URL is rendered as `None`. */
  function BaseText(cfg: Config): string
  {
    match cfg.baseUrl
    case Some(b) => b
    case None => "None"
  }

  /**
   * The lower-cased header names never forwarded from a client and masked in
   * logs: the two standard authorization headers and the credential header's
   * name (the empty name when none is configured).
   */
  function SensitiveKeys(cfg: Config): (keys: set<string>)
    ensures "authorization" in keys && "proxy-authorization" in keys
    ensures cfg.subscriptionName.Some? ==> Lower(cfg.subscriptionName.value) in keys
    ensures cfg.subscriptionName.None? ==> "" in keys
    ensures forall k :: k in keys ==> Lower(k) == k
    ensures forall k :: k in keys ==>
      k == "authorization" || k == "proxy-authorization" ||
      k == (if cfg.subscriptionName.Some? then Lower(cfg.subscriptionName.value) else "")
  {
    {"authorization", "proxy-authorization",
     if cfg.subscriptionName.Some? then Lower(cfg.subscriptionName.value) else ""}
  }
}
