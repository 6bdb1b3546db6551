# Chat gateway: provider routing and failover

A Dafny model of the routing core of a small chat gateway (`index.js`). The
gateway takes a conversation on `POST /api/chat`. It answers from OpenAI when
an API key is configured, and from a local Ollama server otherwise. When
OpenAI fails in a way judged environmental (authentication, quota, rate
limit, server-side status, or a transport error), it falls back to Ollama
once.

The model is pure, like the code it follows:

- `Text`: the ASCII case-insensitive substring test and decimal rendering
  that the code gets from JavaScript. It includes a reference definition of
  "matches at position i" and a proof that the scan agrees with it, plus a
  parse-back proof for the decimal form.
- `Providers`: thrown error values, and the result shaping of the two
  adapters `callOpenAI` and `callOllama`. Their network calls are replaced
  by abstract outcomes: a reply of a given shape, a non-ok HTTP response
  with status and body, or a rejection carrying an error.
- `Classifier`: `isFallbackWorthy`, with the status list and pattern list
  kept as literal tables. It is proved equal to "the status is in the list,
  or some pattern occurs somewhere in the text, ignoring case".
- `Sanitizer`: the validation, truncation to the last 20 entries, and
  coercion block.
- `Routing`: the handler body, as a function from the configuration flag,
  the raw `messages` field and the two provider outcomes to the response
  (status and JSON body) and the trace of provider calls made. Lemmas state
  which branch is taken, which provider is called and how often, and what
  each response holds.

The provider outcomes are parameters, so the model covers every behaviour
of the network: which outcome a provider produces for a request is an input.
The configuration flag stands for "`OPENAI_API_KEY` is set and non-blank",
which is read once at startup.

Details the model takes from the code as written:

- The provider tags are `"openai"` and `"ollama"`, not primary and secondary.
- The notes are the code's literal strings, "Fell back to Ollama due to
  OpenAI failure/quota." and "OpenAI not configured; served by Ollama.".
- The error text that is classified and reported is `String(err?.message || err)`,
  so an error with an empty message is judged by its string form.
- A `null` element among the kept 20 makes `m.role` throw a `TypeError`.
  The handler's outer `catch` then answers 500 "Server error", not 400, and
  no provider is called. The model writes the detail as Node.js's message
  for that error.
- `callOpenAI` throws when no client exists, but the handler calls it only
  when one is configured. `Routing.HandleChat` also calls
  `Providers.CallOpenAI` only inside its `if configured` branch, so the
  not-configured error is never produced through the handler.
- The `/…/i` regular expression has no `u` flag. For these ASCII-only
  patterns, its case folding is exactly ASCII folding, which the model uses.

## Model

| member | source | states |
|---|---|---|
| Text.ContainsIgnoringCase | index.js:43 | the regex `.test` for one pattern: a found pattern is never longer than the text, and the empty pattern is always found |
| Text.StartsWithIgnoringCaseIsMatchAtZero | index.js:43 | the recursive prefix test holds exactly when every pattern character equals the text character at the same offset, ignoring ASCII case |
| Text.ContainsIgnoringCaseIff | index.js:43 | the left-to-right scan finds the pattern exactly when it matches, ignoring case, at some position of the text |
| Text.ExactOccurrenceIsFound | index.js:43 | a verbatim occurrence of a pattern is found |
| Text.CaseOfTextIsIrrelevant | index.js:43 | changing the case of letters in the text never changes whether a pattern is found (the `i` flag) |
| Text.NatToDecimal | index.js:74 | the rendering of a status in the template literal is a non-empty string of digits with no leading zero |
| Text.DecimalRoundTrip | index.js:74 | reading the rendered digits back gives the status |
| Providers.ThrownError | index.js:74 | a `new Error(message)` carries no status and has that message |
| Providers.ErrorText | index.js:43 | the reported text of an error is its message, or its string form when the message is empty or absent |
| Providers.FirstChoiceText | index.js:56 | the reply text is the first choice's content, and "" whenever choices, the first choice, its message or its content is missing |
| Providers.CallOpenAI | index.js:47-58 | with no client it throws "OpenAI not configured (missing OPENAI_API_KEY)."; an SDK error is rethrown unchanged; a completion gives `{text, provider: "openai"}` |
| Providers.CallOllama | index.js:60-80 | a reply gives `{text, provider: "ollama"}` with text "" when the message or content is missing; a non-ok response throws "Ollama error <status>: <body>"; a rejection is rethrown |
| Providers.OllamaStatusMessage | index.js:72-74 | the non-ok message begins "Ollama error " and ends with the body text, "" when the body could not be read |
| Providers.OllamaStatusMessageFormat | index.js:72-74 | the non-ok message starts "Ollama error ", then holds the decimal status (which parses back), ": " and the body, "" when the body could not be read |
| Classifier.EffectiveStatus | index.js:34 | the classified status is the error's own status unless absent or 0, else its response's status |
| Classifier.HasFallbackStatus | index.js:34-42 | the status test holds exactly when the taken status is 401, 429, 500, 502, 503 or 504 |
| Classifier.HasTransportText | index.js:43 | the text test holds exactly when one of the four patterns is found in the error text, ignoring case |
| Classifier.IsFallbackWorthy | index.js:32-45 | a listed status makes the error worthy, a found pattern makes it worthy, and nothing else does |
| Classifier.StatusComesFromErrorThenResponse | index.js:34-42 | a non-zero own status alone decides the status test; without one, the response's status decides |
| Classifier.FallbackStatusIsWorthy | index.js:36-42 | statuses 401, 429, 500, 502, 503 and 504 are fallback-worthy whatever the text |
| Classifier.TransportTextIff | index.js:43 | the four pattern tests together hold exactly when one of ECONNREFUSED, ETIMEDOUT, ENOTFOUND, "fetch failed" occurs at some position, ignoring case |
| Classifier.FallbackWorthyIff | index.js:32-45 | worthy if and only if the status is in the list or a pattern occurs in the text |
| Classifier.TransportTextIsWorthy | index.js:43 | any pattern occurring in the text in any case makes the error worthy whatever its status |
| Classifier.OtherFailureIsNotWorthy | index.js:36-44 | any other status, or none, with text containing no pattern, is not worthy |
| Classifier.ConnectionRefusedExample | index.js:43 | a lower-case "connect econnrefused …" error with no status is worthy |
| Classifier.WorthyStatusExamples | index.js:34-42 | a 429 on the error, or a 503 on its response, is worthy |
| Classifier.ForbiddenExample | index.js:36-44 | a 403 "Forbidden" is not worthy |
| Sanitizer.ContentText | index.js:92 | content becomes "" when undefined or null, and its string form otherwise |
| Sanitizer.KeepLast | index.js:90 | `slice(-20)` keeps min(n, 20) elements, and they are the suffix of the input |
| Sanitizer.NormalizeEntry | index.js:90-93 | the map callback succeeds exactly on a non-null element, keeping its role and coercing its content; on null it throws the null-access message |
| Sanitizer.NormalizeAll | index.js:90-93 | the map succeeds exactly when no element is null, and then gives one message per element, in order, with the role unchanged and the content coerced |
| Sanitizer.Sanitize | index.js:84-93 | the input is rejected exactly when `messages` is missing, not an array, or empty; a crash carries the null-access message |
| Sanitizer.SanitizeIsNormalizeOfSuffix | index.js:90-93 | a non-empty array is judged and converted by its last min(n, 20) entries only |
| Sanitizer.SanitizeKeepsLastTwenty | index.js:90-93 | a non-empty array of n entries yields exactly its last min(n, 20) entries in order, each with its role and coerced content, unless one of them is null, in which case it crashes |
| Sanitizer.SanitizedIsBounded | index.js:85-90 | a sanitized conversation has between 1 and 20 messages |
| Sanitizer.TwentyFiveBecomeTwenty | index.js:90 | 25 messages become exactly the last 20, in order, each with its role and coerced content |
| Sanitizer.SingleMessageExample | index.js:90-93 | `[{role: "user", content: "hi"}]` passes through unchanged |
| Routing.ServerErrorResponse | index.js:113-116 | the outer `catch` answers 500 `{error: "Server error", detail}` with the error's text, its message whenever that is non-empty |
| Routing.ServeByOllama | index.js:106-111 | serving by Ollama appends exactly one Ollama call, with the messages given, to the trace |
| Routing.HandleChat | index.js:82-117 | every response is 200, 400 or 500; it is 200 exactly when it carries a reply; at most two provider calls are made |
| Routing.InvalidInputCallsNoProvider | index.js:84-87 | missing, non-array or empty `messages` if and only if the response is 400 "messages must be a non-empty array" and no provider is called |
| Routing.CallsCarrySanitizedMessages | index.js:95-112 | a provider is called only with a valid input, and every call is sent the sanitized conversation |
| Routing.TraceShapes | index.js:95-112 | the trace is empty for bad input, OpenAI alone when it succeeds or fails unworthily, OpenAI then Ollama on a worthy failure, Ollama alone without a client |
| Routing.OpenAICalledOnlyWhenConfigured | index.js:96-98 | OpenAI is called if and only if it is configured and the input is valid, then once and first |
| Routing.OllamaCalledOnlyOnFallbackOrUnconfigured | index.js:96-112 | Ollama is called if and only if the input is valid and either no client is configured or OpenAI's failure is worthy, then once and last |
| Routing.OpenAISuccess | index.js:96-99 | an OpenAI success gives 200 `{text, provider: "openai"}` with no note, and Ollama is never called |
| Routing.OpenAIFailureReported | index.js:100-104 | an unworthy OpenAI failure gives 500 "OpenAI request failed" with OpenAI's error text, and Ollama is never called |
| Routing.FallbackToOllama | index.js:100-115 | a worthy OpenAI failure calls Ollama once with the same messages; its reply carries the fallback note, and its failure gives 500 "Server error" with Ollama's error text |
| Routing.UnconfiguredServedByOllama | index.js:109-115 | with no client only Ollama is called; its reply carries the not-configured note, and its failure gives 500 "Server error" with Ollama's error text |
| Routing.OllamaStatusFailureDetail | index.js:72-74 | whenever Ollama is called and answers not ok, the response is 500 "Server error" with detail "Ollama error <status>: <body>" |
| Routing.NullEntryIsServerError | index.js:90-91 | a null among the kept messages gives 500 "Server error" and no provider call |
| Routing.ReplyTagAndNote | index.js:96-111 | a reply tagged "openai" has no note and came from the only call; a reply tagged "ollama" has the note matching why Ollama served it |
| Routing.OpenAIHelloScenario | index.js:96-99 | "hi" with OpenAI replying "hello" gives `{text: "hello", provider: "openai"}` |
| Routing.RateLimitedScenario | index.js:100-107 | "hi" with OpenAI answering 429 and Ollama replying "hello from local" gives that text, tagged "ollama", with the fallback note |
| Routing.UnconfiguredScenario | index.js:109-111 | with no client and Ollama replying "hi there", the reply is tagged "ollama" with the not-configured note |

## Left out

- Express setup, CORS, the JSON body limit, dotenv and environment loading, `/health`, `app.listen` and all `console` logging (index.js:1-30, 101, 114, 119-123). These are framework and I/O plumbing. The configuration is a boolean parameter.
- The OpenAI SDK request (model name, temperature 0.7) and the HTTP `fetch` to Ollama, with JSON encoding and decoding and `resp.text()`. These are network calls, modelled only as their abstract outcomes.
- Asynchrony and cancellation. The two calls are strictly sequential, and the trace records their order.
- Classifier.EffectiveStatus: a status that is not a number, or `NaN`, is not represented. Strict equality with the listed numbers would reject it anyway.
- Sanitizer.ContentText: a `String(content)` that throws (a Symbol, or a throwing `toString`) is not modelled. Neither is the exact string form of each JavaScript value: `Other` carries it as given.
- Providers.CallOllama, Providers.FirstChoiceText: reply content that is a non-string JSON value is not represented. The model's content is a string or absent.
- The React UI (App.jsx). It only displays `provider` and `note`.
