/**
 * Payload normalisation for the gpt-5 model family on the chat-completions
 * path, and the stream detection that re-reads the final body.
 */
module Normalize {
  import opened Wrappers
  import opened Text
  import opened Json

  const ChatPath := "/v1/chat/completions"
  const ModelPrefix := "gpt-5"
  const MaxCompletion := "max_completion_tokens"
  const MaxOutput := "max_output_tokens"
  const MaxTokens := "max_tokens"
  const Temperature := "temperature"
  const DefaultCompletionTokens := 128000
  const StreamAccept := "text/event-stream"

  /** Looking up a key in a truthy document that is not an object raises AttributeError. */
  datatype PayloadError = NotAnObject

  /** The body and headers that leave for the upstream. */
  datatype Prepared = Prepared(body: Bytes, headers: HeaderMap)

  /** The text of the `model` field (empty when absent), lower-cased, starts with the gpt-5 prefix. */
  predicate TargetsModelFamily(fields: map<string, Value>)
  {
    ModelPrefix <= Lower(PyStr(Lookup(fields, "model", Str(""))))
  }

  /** The `stream` field is present and is the boolean `true` itself (not merely truthy). */
  predicate StreamRequested(fields: map<string, Value>)
  {
    Lookup(fields, "stream", Null) == Bool(true)
  }

  /** The body is rewritten: a non-empty object, on the chat path, for a gpt-5 model. */
  predicate Rewrites(parsed: Option<Value>, path: string)
  {
    && parsed.Some? && parsed.value.Obj? && parsed.value.fields != map[]
    && path == ChatPath && TargetsModelFamily(parsed.value.fields)
  }

  /** The normalisation block raises: a truthy document that is not an object, on the chat path. */
  predicate RaisesOnPayload(parsed: Option<Value>, path: string)
  {
    parsed.Some? && Truthy(parsed.value) && !parsed.value.Obj? && path == ChatPath
  }

  /** Only a string model name can match: `str()` of anything else starts with `N`, `T`, `F`, `[`, `{`, `-` or a digit. */
  lemma {:induction false} ModelFamilyNeedsString(fields: map<string, Value>)
    ensures TargetsModelFamily(fields) <==>
      "model" in fields && fields["model"].Str? && ModelPrefix <= Lower(fields["model"].s)
  {
    var v := Lookup(fields, "model", Str(""));
    var text := Lower(PyStr(v));
    if v.Num? {
      DecimalRoundTrip(v.n);
      assert text[0] == DecimalString(v.n)[0] != ModelPrefix[0];
      assert !(ModelPrefix <= text);
    } else if !v.Str? {
      assert |text| > 0 && text[0] != ModelPrefix[0];
    }
  }

  /**
   * The field rewrite: an explicit `max_completion_tokens` wins; otherwise
   * `max_output_tokens`, else `max_tokens`, is renamed to it, else it
   * defaults to 128000; `temperature` is forced to 1; nothing else changes.
   */
  function Rewrite(fields: map<string, Value>): (r: map<string, Value>)
    ensures MaxCompletion in r && Temperature in r && r[Temperature] == Num(1)
    ensures MaxCompletion in fields ==>
      && r[MaxCompletion] == fields[MaxCompletion]
      && (MaxOutput in r <==> MaxOutput in fields)
      && (MaxOutput in fields ==> r[MaxOutput] == fields[MaxOutput])
      && (MaxTokens in r <==> MaxTokens in fields)
      && (MaxTokens in fields ==> r[MaxTokens] == fields[MaxTokens])
    ensures MaxCompletion !in fields && MaxOutput in fields ==>
      && r[MaxCompletion] == fields[MaxOutput]
      && MaxOutput !in r
      && (MaxTokens in r <==> MaxTokens in fields)
      && (MaxTokens in fields ==> r[MaxTokens] == fields[MaxTokens])
    ensures MaxCompletion !in fields && MaxOutput !in fields && MaxTokens in fields ==>
      r[MaxCompletion] == fields[MaxTokens] && MaxTokens !in r && MaxOutput !in r
    ensures MaxCompletion !in fields && MaxOutput !in fields && MaxTokens !in fields ==>
      r[MaxCompletion] == Num(DefaultCompletionTokens) && MaxOutput !in r && MaxTokens !in r
    ensures forall k :: k in fields && k != MaxCompletion && k != MaxOutput && k != MaxTokens && k != Temperature ==>
      k in r && r[k] == fields[k]
    ensures forall k :: k in r ==> k in fields || k == MaxCompletion || k == Temperature
  {
    var limited :=
      if MaxCompletion in fields then fields
      else if MaxOutput in fields then (fields - {MaxOutput})[MaxCompletion := fields[MaxOutput]]
      else if MaxTokens in fields then (fields - {MaxTokens})[MaxCompletion := fields[MaxTokens]]
      else fields[MaxCompletion := Num(DefaultCompletionTokens)];
    limited[Temperature := Num(1)]
  }

  /** Re-normalising a normalised payload changes nothing. */
  lemma RewriteIdempotent(fields: map<string, Value>)
    ensures Rewrite(Rewrite(fields)) == Rewrite(fields)
  {
  }

  /** A rewritten payload still passes the gate and keeps its stream flag. */
  lemma RewriteKeepsGate(fields: map<string, Value>)
    ensures Rewrite(fields) != map[]
    ensures TargetsModelFamily(Rewrite(fields)) <==> TargetsModelFamily(fields)
    ensures StreamRequested(Rewrite(fields)) <==> StreamRequested(fields)
  {
    assert MaxCompletion in Rewrite(fields);
  }

  /**
   * The normalisation block of the forwarder: parse the body and, for a
   * gpt-5 chat-completions payload, rewrite it in place, ask for an event
   * stream when `stream` is `true`, and serialise it back; otherwise the body
   * and headers leave unchanged.
   */
  method NormalizeRequest(codec: Codec, path: string, body: Bytes, headers: HeaderMap)
    returns (r: Result<Prepared, PayloadError>)
    ensures r.Failure? <==> RaisesOnPayload(codec.loads(body), path)
    ensures r.Success? && Rewrites(codec.loads(body), path) ==>
      var fields := codec.loads(body).value.fields;
      && r.value.body == codec.dumps(Obj(Rewrite(fields)))
      && r.value.headers == if StreamRequested(fields) then headers["Accept" := StreamAccept] else headers
    ensures r.Success? && !Rewrites(codec.loads(body), path) ==> r.value == Prepared(body, headers)
  {
    var payload := codec.loads(body);
    var outBody := body;
    var outHeaders := headers;
    if payload.Some? && Truthy(payload.value) && path == ChatPath {
      if !payload.value.Obj? {
        return Failure(NotAnObject);
      }
      var fields := payload.value.fields;
      var model := Lower(PyStr(Lookup(fields, "model", Str(""))));
      if ModelPrefix <= model {
        if MaxCompletion !in fields {
          if MaxOutput in fields {
            var v := fields[MaxOutput];
            fields := fields - {MaxOutput};
            fields := fields[MaxCompletion := v];
          } else if MaxTokens in fields {
            var v := fields[MaxTokens];
            fields := fields - {MaxTokens};
            fields := fields[MaxCompletion := v];
          } else {
            fields := fields[MaxCompletion := Num(DefaultCompletionTokens)];
          }
        }
        fields := fields[Temperature := Num(1)];
        if Lookup(fields, "stream", Null) == Bool(true) {
          outHeaders := outHeaders["Accept" := StreamAccept];
        }
        outBody := codec.dumps(Obj(fields));
      }
    }
    return Success(Prepared(outBody, outHeaders));
  }

  /** The body that leaves for the upstream: the serialised rewrite, or the client's bytes. */
  function FinalBody(codec: Codec, path: string, body: Bytes): Bytes
  {
    if Rewrites(codec.loads(body), path) then codec.dumps(Obj(Rewrite(codec.loads(body).value.fields))) else body
  }

  /** Normalisation sets `Accept: text/event-stream`: a rewritten payload whose `stream` is `true`. */
  predicate SetsStreamAccept(codec: Codec, path: string, body: Bytes)
  {
    Rewrites(codec.loads(body), path) && StreamRequested(codec.loads(body).value.fields)
  }

  /**
   * Stream detection: with streaming allowed, re-parse the final body; only a
   * `stream` field that is exactly `true` selects the streaming relay.
   */
  function WantsStream(allowStream: bool, codec: Codec, body: Bytes): (r: Result<bool, PayloadError>)
    ensures r == Success(true) <==>
      allowStream && codec.loads(body).Some? && codec.loads(body).value.Obj? &&
      StreamRequested(codec.loads(body).value.fields)
    ensures r.Failure? <==>
      allowStream && codec.loads(body).Some? && Truthy(codec.loads(body).value) && !codec.loads(body).value.Obj?
  {
    if !allowStream then Success(false)
    else match codec.loads(body)
      case None => Success(false)
      case Some(v) =>
        if !Truthy(v) then Success(false)
        else if !v.Obj? then Failure(NotAnObject)
        else Success(StreamRequested(v.fields))
  }

  /**
   * When the serialiser round-trips the rewritten payload, normalising its
   * bytes once more yields the same bytes and headers, and stream detection
   * on them sees the flag that set the `Accept` header.
   */
  lemma {:induction false} NormalizedBodyIsFixedPoint(codec: Codec, fields: map<string, Value>)
    requires Rewrites(Some(Obj(fields)), ChatPath)
    requires codec.loads(codec.dumps(Obj(Rewrite(fields)))) == Some(Obj(Rewrite(fields)))
    ensures Rewrites(codec.loads(codec.dumps(Obj(Rewrite(fields)))), ChatPath)
    ensures codec.dumps(Obj(Rewrite(Rewrite(fields)))) == codec.dumps(Obj(Rewrite(fields)))
    ensures StreamRequested(Rewrite(fields)) == StreamRequested(fields)
    ensures WantsStream(true, codec, codec.dumps(Obj(Rewrite(fields)))) == Success(StreamRequested(fields))
  {
    RewriteKeepsGate(fields);
    RewriteIdempotent(fields);
  }
}
