/**
 * The body of the `/api/chat` handler: sanitize, try OpenAI when it is
 * configured, classify its failure, fall back to Ollama at most once, and
 * build the response. Provider behaviour for the request is given as
 * abstract outcomes; the result records the response and, in order, every
 * provider call made with the messages it was sent.
 */
module Routing {
  import opened Wrappers
  import opened Providers
  import opened Classifier
  import opened Sanitizer

  /** One call into a provider adapter, with the messages passed to it. */
  datatype Call = OpenAICall(sent: seq<Message>) | OllamaCall(sent: seq<Message>)

  /** A JSON response body: a reply `{text, provider, note?}` or an error `{error, detail?}`. */
  datatype Body =
    | Reply(text: string, provider: string, note: Option<string>)
    | ErrorBody(error: string, detail: Option<string>)

  datatype Response = Response(status: nat, body: Body)

  /** What handling one request produces: the response and the trace of provider calls. */
  datatype Handled = Handled(response: Response, calls: seq<Call>)

  const FallbackNote: string := "Fell back to Ollama due to OpenAI failure/quota."
  const NotConfiguredNote: string := "OpenAI not configured; served by Ollama."
  const OpenAIFailedError: string := "OpenAI request failed"
  const ServerError: string := "Server error"

  /** The outer `catch`: any error thrown in the handler becomes 500 "Server error". */
  function ServerErrorResponse(e: ProviderError): (r: Response)
    ensures r.status == 500 && r.body == ErrorBody("Server error", Some(ErrorText(e)))
    ensures e.message != "" ==> r.body.detail == Some(e.message)
  {
    Response(500, ErrorBody(ServerError, Some(ErrorText(e))))
  }

  /** `callOllama(safeMessages)` and its two endings: the reply with `note`, or the outer `catch`. */
  function ServeByOllama(messages: seq<Message>, ollama: OllamaOutcome, note: string, before: seq<Call>): (h: Handled)
    ensures h.calls == before + [OllamaCall(messages)]
  {
    var calls := before + [OllamaCall(messages)];
    match CallOllama(ollama)
    case Success(out) => Handled(Response(200, Reply(out.text, out.provider, Some(note))), calls)
    case Failure(e) => Handled(ServerErrorResponse(e), calls)
  }

  /** The `/api/chat` handler, for a configured or unconfigured OpenAI client. */
  function HandleChat(configured: bool, field: MessagesField, openai: OpenAIOutcome, ollama: OllamaOutcome): (h: Handled)
    ensures h.response.status in {200, 400, 500}
    ensures h.response.status == 200 <==> h.response.body.Reply?
    ensures |h.calls| <= 2
  {
    match Sanitize(field)
    case Invalid => Handled(Response(400, ErrorBody(InvalidMessages, None)), [])
    case Crashed(detail) => Handled(Response(500, ErrorBody(ServerError, Some(detail))), [])
    case Clean(messages) =>
      if configured then
        var first := [OpenAICall(messages)];
        match CallOpenAI(configured, openai)
        case Success(out) => Handled(Response(200, Reply(out.text, out.provider, None)), first)
        case Failure(err) =>
          if !IsFallbackWorthy(err) then
            Handled(Response(500, ErrorBody(OpenAIFailedError, Some(ErrorText(err)))), first)
          else
            ServeByOllama(messages, ollama, FallbackNote, first)
      else
        ServeByOllama(messages, ollama, NotConfiguredNote, [])
  }

  /** How many calls in a trace went to Ollama. */
  function OllamaCalls(calls: seq<Call>): nat {
    if calls == [] then 0 else (if calls[0].OllamaCall? then 1 else 0) + OllamaCalls(calls[1..])
  }

  /** How many calls in a trace went to OpenAI. */
  function OpenAICalls(calls: seq<Call>): nat {
    if calls == [] then 0 else (if calls[0].OpenAICall? then 1 else 0) + OpenAICalls(calls[1..])
  }

  /** Missing, non-array or empty `messages`: 400 with the fixed error, and no provider is called. */
  lemma InvalidInputCallsNoProvider(configured: bool, field: MessagesField, openai: OpenAIOutcome, ollama: OllamaOutcome)
    ensures var h := HandleChat(configured, field, openai, ollama);
      (field.Absent? || field.NotAnArray? || (field.AnArray? && |field.entries| == 0))
      <==> (h.response == Response(400, ErrorBody(InvalidMessages, None)) && h.calls == [])
  {
  }

  /** Every call made carries the sanitized conversation; no call is made without one. */
  lemma CallsCarrySanitizedMessages(configured: bool, field: MessagesField, openai: OpenAIOutcome, ollama: OllamaOutcome)
    ensures var h := HandleChat(configured, field, openai, ollama);
      && (|h.calls| > 0 ==> Sanitize(field).Clean?)
      && forall k :: 0 <= k < |h.calls| ==> h.calls[k].sent == Sanitize(field).messages
  {
  }

  /** The four possible traces: nothing, OpenAI alone, Ollama alone, or OpenAI then Ollama. */
  lemma TraceShapes(configured: bool, field: MessagesField, openai: OpenAIOutcome, ollama: OllamaOutcome)
    ensures var h := HandleChat(configured, field, openai, ollama);
      var ms := if Sanitize(field).Clean? then Sanitize(field).messages else [];
      && (!Sanitize(field).Clean? ==> h.calls == [])
      && (Sanitize(field).Clean? && !configured ==> h.calls == [OllamaCall(ms)])
      && (Sanitize(field).Clean? && configured ==>
            h.calls == if openai.OpenAIFailed? && IsFallbackWorthy(openai.error)
                       then [OpenAICall(ms), OllamaCall(ms)] else [OpenAICall(ms)])
  {
  }

  lemma CountsOfShapes(ms: seq<Message>)
    ensures OpenAICalls([]) == 0 && OllamaCalls([]) == 0
    ensures OpenAICalls([OpenAICall(ms)]) == 1 && OllamaCalls([OpenAICall(ms)]) == 0
    ensures OpenAICalls([OllamaCall(ms)]) == 0 && OllamaCalls([OllamaCall(ms)]) == 1
    ensures OpenAICalls([OpenAICall(ms), OllamaCall(ms)]) == 1 && OllamaCalls([OpenAICall(ms), OllamaCall(ms)]) == 1
  {
    assert [OpenAICall(ms), OllamaCall(ms)][1..] == [OllamaCall(ms)];
  }

  /**
   * OpenAI is called exactly when it is configured and the input is valid,
   * and then it is called once and first.
   */
  lemma {:induction false} OpenAICalledOnlyWhenConfigured(configured: bool, field: MessagesField, openai: OpenAIOutcome, ollama: OllamaOutcome)
    ensures var h := HandleChat(configured, field, openai, ollama);
      && (OpenAICalls(h.calls) > 0 <==> configured && Sanitize(field).Clean?)
      && OpenAICalls(h.calls) <= 1
      && (OpenAICalls(h.calls) == 1 ==> h.calls[0].OpenAICall?)
  {
    TraceShapes(configured, field, openai, ollama);
    CountsOfShapes(if Sanitize(field).Clean? then Sanitize(field).messages else []);
  }

  /**
   * Ollama is called exactly when the input is valid and either OpenAI is
   * not configured or its failure is fallback-worthy; then exactly once, last.
   */
  lemma {:induction false} OllamaCalledOnlyOnFallbackOrUnconfigured(configured: bool, field: MessagesField, openai: OpenAIOutcome, ollama: OllamaOutcome)
    ensures var h := HandleChat(configured, field, openai, ollama);
      && (OllamaCalls(h.calls) > 0 <==>
            Sanitize(field).Clean? && (!configured || (openai.OpenAIFailed? && IsFallbackWorthy(openai.error))))
      && OllamaCalls(h.calls) <= 1
      && (OllamaCalls(h.calls) == 1 ==> h.calls[|h.calls| - 1].OllamaCall?)
  {
    TraceShapes(configured, field, openai, ollama);
    CountsOfShapes(if Sanitize(field).Clean? then Sanitize(field).messages else []);
  }

  /** Configured and OpenAI succeeds: `{text, provider: "openai"}`, no note, and Ollama is never called. */
  lemma OpenAISuccess(field: MessagesField, c: Completion, ollama: OllamaOutcome)
    requires Sanitize(field).Clean?
    ensures var h := HandleChat(true, field, Completed(c), ollama);
      && h.response == Response(200, Reply(FirstChoiceText(c), "openai", None))
      && h.calls == [OpenAICall(Sanitize(field).messages)]
  {
  }

  /** Configured and OpenAI fails in a way that is not worthy: 500 with OpenAI's message, Ollama never called. */
  lemma OpenAIFailureReported(field: MessagesField, e: ProviderError, ollama: OllamaOutcome)
    requires Sanitize(field).Clean? && !IsFallbackWorthy(e)
    ensures var h := HandleChat(true, field, OpenAIFailed(e), ollama);
      && h.response == Response(500, ErrorBody("OpenAI request failed", Some(ErrorText(e))))
      && h.calls == [OpenAICall(Sanitize(field).messages)]
  {
  }

  /**
   * Configured and OpenAI fails in a worthy way: Ollama is called once with
   * the same messages; its reply is tagged "ollama" with the fallback note,
   * and its failure is 500 "Server error" with Ollama's message, not OpenAI's.
   */
  lemma FallbackToOllama(field: MessagesField, e: ProviderError, ollama: OllamaOutcome)
    requires Sanitize(field).Clean? && IsFallbackWorthy(e)
    ensures var h := HandleChat(true, field, OpenAIFailed(e), ollama);
      var ms := Sanitize(field).messages;
      && h.calls == [OpenAICall(ms), OllamaCall(ms)]
      && (CallOllama(ollama).Success? ==>
            h.response == Response(200, Reply(CallOllama(ollama).value.text, "ollama",
                                              Some("Fell back to Ollama due to OpenAI failure/quota."))))
      && (CallOllama(ollama).Failure? ==>
            h.response == Response(500, ErrorBody("Server error", Some(ErrorText(CallOllama(ollama).error)))))
  {
  }

  /**
   * Not configured: Ollama alone is called; its reply carries the
   * not-configured note, its failure is 500 "Server error" with its message.
   */
  lemma UnconfiguredServedByOllama(field: MessagesField, openai: OpenAIOutcome, ollama: OllamaOutcome)
    requires Sanitize(field).Clean?
    ensures var h := HandleChat(false, field, openai, ollama);
      && h.calls == [OllamaCall(Sanitize(field).messages)]
      && (CallOllama(ollama).Success? ==>
            h.response == Response(200, Reply(CallOllama(ollama).value.text, "ollama",
                                              Some("OpenAI not configured; served by Ollama."))))
      && (CallOllama(ollama).Failure? ==>
            h.response == Response(500, ErrorBody("Server error", Some(ErrorText(CallOllama(ollama).error)))))
  {
  }

  /**
   * Whenever Ollama answers with a status that is not ok, the response is
   * 500 "Server error" with detail "Ollama error <status>: <body>".
   */
  lemma OllamaStatusFailureDetail(configured: bool, field: MessagesField, openai: OpenAIOutcome, status: nat, body: Option<string>)
    requires OllamaCalls(HandleChat(configured, field, openai, NotOk(status, body)).calls) > 0
    ensures HandleChat(configured, field, openai, NotOk(status, body)).response
            == Response(500, ErrorBody("Server error", Some(OllamaStatusMessage(status, body))))
  {
    OllamaCalledOnlyOnFallbackOrUnconfigured(configured, field, openai, NotOk(status, body));
  }

  /** A `null` among the kept messages makes the handler answer 500 "Server error" before any call. */
  lemma NullEntryIsServerError(configured: bool, field: MessagesField, openai: OpenAIOutcome, ollama: OllamaOutcome)
    requires Sanitize(field).Crashed?
    ensures HandleChat(configured, field, openai, ollama)
            == Handled(Response(500, ErrorBody("Server error", Some(NullEntryError))), [])
  {
  }

  /** A reply is only ever tagged with the provider that produced it, and only fallback or no client adds a note. */
  lemma ReplyTagAndNote(configured: bool, field: MessagesField, openai: OpenAIOutcome, ollama: OllamaOutcome)
    requires HandleChat(configured, field, openai, ollama).response.body.Reply?
    ensures var h := HandleChat(configured, field, openai, ollama);
      var b := h.response.body;
      && (b.provider == "openai" <==> b.note.None?)
      && (b.provider == "openai" ==> h.calls == [OpenAICall(Sanitize(field).messages)])
      && (b.provider == "ollama" ==> b.note == Some(if configured then FallbackNote else NotConfiguredNote))
      && (b.provider == "openai" || b.provider == "ollama")
  {
  }

  /** `[{role: "user", content: "hi"}]`, OpenAI configured and replying "hello": `{text: "hello", provider: "openai"}`. */
  lemma OpenAIHelloScenario(ollama: OllamaOutcome)
    ensures HandleChat(true, AnArray([Entry(Str("user"), Str("hi"))]),
                       Completed(Completion(Some([Choice(Some(ReplyMessage(Some("hello"))))]))), ollama).response
            == Response(200, Reply("hello", "openai", None))
  {
    SingleMessageExample();
  }

  /** The same input, OpenAI answering 429 and Ollama replying "hello from local": served by Ollama with the fallback note. */
  lemma RateLimitedScenario(message: string)
    ensures HandleChat(true, AnArray([Entry(Str("user"), Str("hi"))]),
                       OpenAIFailed(ProviderError(Some(429), None, message, "Error: " + message)),
                       Answered(Some(ReplyMessage(Some("hello from local"))))).response
            == Response(200, Reply("hello from local", "ollama", Some(FallbackNote)))
  {
    var field := AnArray([Entry(Str("user"), Str("hi"))]);
    var e := ProviderError(Some(429), None, message, "Error: " + message);
    var ollama := Answered(Some(ReplyMessage(Some("hello from local"))));
    SingleMessageExample();
    FallbackStatusIsWorthy(e);
    FallbackToOllama(field, e, ollama);
    assert CallOllama(ollama) == Success(ProviderResult("hello from local", "ollama"));
  }

  /** No OpenAI client and Ollama replying "hi there": served by Ollama with the not-configured note. */
  lemma UnconfiguredScenario(openai: OpenAIOutcome)
    ensures HandleChat(false, AnArray([Entry(Str("user"), Str("hi"))]), openai,
                       Answered(Some(ReplyMessage(Some("hi there"))))).response
            == Response(200, Reply("hi there", "ollama", Some(NotConfiguredNote)))
  {
    SingleMessageExample();
  }
}
