/**
 * The two provider adapters, `callOpenAI` and `callOllama`, with their
 * network calls replaced by abstract outcomes. What remains is the part of
 * each adapter that is logic: how a reply is shaped into a provider result,
 * and how a failure is turned into a thrown error.
 */
module Providers {
  import opened Wrappers
  import Text

  /**
   * A thrown error value, as far as the gateway looks at it: its own
   * `status`, the `status` of its `response` (both absent when the error
   * carries none), its `message` ("" when absent or empty) and its string
   * form `String(err)`.
   */
  datatype ProviderError = ProviderError(
    status: Option<int>,
    responseStatus: Option<int>,
    message: string,
    rendered: string)

  /** The value of `new Error(message)`: no status, and `String(e)` is "Error: message". */
  function ThrownError(message: string): (e: ProviderError)
    ensures e.status == None && e.responseStatus == None && e.message == message
  {
    ProviderError(None, None, message, if message == "" then "Error" else "Error: " + message)
  }

  /** The text the gateway reports for an error: `String(err?.message || err)`. */
  function ErrorText(e: ProviderError): (t: string)
    ensures e.message != "" ==> t == e.message
    ensures e.message == "" ==> t == e.rendered
  {
    if e.message != "" then e.message else e.rendered
  }

  /** A provider's successful result: `{ text, provider }`. */
  datatype ProviderResult = ProviderResult(text: string, provider: string)

  const OpenAITag: string := "openai"
  const OllamaTag: string := "ollama"

  /** A chat message in a provider's reply; `content` is absent when missing or null. */
  datatype ReplyMessage = ReplyMessage(content: Option<string>)

  /** An OpenAI choice; `message` is absent when missing. */
  datatype Choice = Choice(message: Option<ReplyMessage>)

  /** An OpenAI chat completion; `choices` is absent when missing. */
  datatype Completion = Completion(choices: Option<seq<Choice>>)

  /** What the OpenAI SDK call does for one request: resolve with a completion, or reject. */
  datatype OpenAIOutcome = Completed(completion: Completion) | OpenAIFailed(error: ProviderError)

  /**
   * What the `fetch` to Ollama does for one request: an ok response whose
   * JSON body `data` has a `message` (absent when `data` or `data.message`
   * is missing or null); a response that is not ok, with its status and its
   * body text (absent when reading the body failed); or a rejection of the
   * `fetch` or of `resp.json()`.
   */
  datatype OllamaOutcome =
    | Answered(message: Option<ReplyMessage>)
    | NotOk(httpStatus: nat, body: Option<string>)
    | OllamaFailed(error: ProviderError)

  const OpenAINotConfigured: string := "OpenAI not configured (missing OPENAI_API_KEY)."

  /** `completion.choices?.[0]?.message?.content ?? ""`. */
  function FirstChoiceText(c: Completion): (text: string)
    ensures (c.choices.Some? && |c.choices.value| > 0 && c.choices.value[0].message.Some?
             && c.choices.value[0].message.value.content.Some?)
            ==> text == c.choices.value[0].message.value.content.value
    ensures (c.choices.None? || |c.choices.value| == 0 || c.choices.value[0].message.None?
             || c.choices.value[0].message.value.content.None?)
            ==> text == ""
  {
    match c.choices
    case None => ""
    case Some(cs) =>
      if |cs| == 0 then ""
      else match cs[0].message
        case None => ""
        case Some(m) => m.content.GetOr("")
  }

  /**
   * `callOpenAI`: throws when no client is configured; otherwise rethrows
   * the SDK's error, or returns the first choice's text tagged "openai".
   */
  function CallOpenAI(configured: bool, outcome: OpenAIOutcome): (r: Result<ProviderResult, ProviderError>)
    ensures !configured ==> r == Failure(ThrownError(OpenAINotConfigured))
    ensures configured && outcome.OpenAIFailed? ==> r == Failure(outcome.error)
    ensures configured && outcome.Completed?
            ==> r == Success(ProviderResult(FirstChoiceText(outcome.completion), OpenAITag))
  {
    if !configured then Failure(ThrownError(OpenAINotConfigured))
    else match outcome
      case OpenAIFailed(e) => Failure(e)
      case Completed(c) => Success(ProviderResult(FirstChoiceText(c), OpenAITag))
  }

  /** The message of the error thrown for a response that is not ok. */
  function OllamaStatusMessage(httpStatus: nat, body: Option<string>): (m: string)
    ensures |m| > 15 + |body.GetOr("")| && m[..13] == "Ollama error "
    ensures m[|m| - |body.GetOr("")|..] == body.GetOr("")
  {
    "Ollama error " + Text.NatToDecimal(httpStatus) + ": " + body.GetOr("")
  }

  /**
   * `callOllama`: a response that is not ok becomes a thrown
   * "Ollama error <status>: <body>"; a rejection is rethrown; an ok response
   * yields `data?.message?.content ?? ""` tagged "ollama".
   */
  function CallOllama(outcome: OllamaOutcome): (r: Result<ProviderResult, ProviderError>)
    ensures outcome.Answered? ==> r.Success? && r.value.provider == OllamaTag
    ensures outcome.Answered? && outcome.message.Some? && outcome.message.value.content.Some?
            ==> r.value.text == outcome.message.value.content.value
    ensures outcome.Answered? && (outcome.message.None? || outcome.message.value.content.None?)
            ==> r.value.text == ""
    ensures outcome.NotOk? ==> r == Failure(ThrownError(OllamaStatusMessage(outcome.httpStatus, outcome.body)))
    ensures outcome.OllamaFailed? ==> r == Failure(outcome.error)
  {
    match outcome
    case NotOk(status, body) => Failure(ThrownError(OllamaStatusMessage(status, body)))
    case OllamaFailed(e) => Failure(e)
    case Answered(m) =>
      Success(ProviderResult(match m case None => "" case Some(rm) => rm.content.GetOr(""), OllamaTag))
  }

  /**
   * The message of a non-ok Ollama response reads back: it is
   * "Ollama error ", the decimal status (which parses back to the status),
   * ": " and the body text, "" when the body could not be read.
   */
  lemma OllamaStatusMessageFormat(httpStatus: nat, body: Option<string>)
    ensures var m := ErrorText(ThrownError(OllamaStatusMessage(httpStatus, body)));
      var digits := Text.NatToDecimal(httpStatus);
      && m == "Ollama error " + digits + ": " + body.GetOr("")
      && Text.DecimalValue(digits) == httpStatus
      && m[..13] == "Ollama error "
  {
    Text.DecimalRoundTrip(httpStatus);
  }
}
