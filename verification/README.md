# mistral-go client core in Dafny

This project models the decision logic of the Go client for the Mistral
large-language-model REST API (module `mistral`). It covers four parts:

- **Client configuration** (`client.dfy`, module `Client`). `NewMistralClient`
  replaces each zero-valued argument by its default:
  - the endpoint `https://api.mistral.ai`;
  - 5 retries;
  - a 120 s timeout;
  - the `MISTRAL_API_KEY` environment variable for the key.

  The two default constructors fix the Mistral or the Codestral endpoint.
  The configuration never changes after construction, so it is a datatype.
- **Transport core** (`client.dfy`). `request` prepares one request and
  passes it to at most `maxRetries` attempts.
  - A connection error is retried at once, with no wait. On the last attempt
    it is the result.
  - A status in {429, 500, 502, 503, 504} waits (i+1) x 500 ms after attempt
    i and is retried. The wait also happens after the last attempt.
  - Any other status ends the loop.
  - After the loop, a status of 400 or more is an HTTP error carrying the
    status and the body text. This includes a retryable status left when the
    attempts run out.
  - Otherwise a streaming call gets the raw body, and a buffered call gets the
    body parsed as a JSON object.

  The network is a function `server(request, i)` that gives the outcome of
  attempt i. `time.Sleep` is recorded as the list of waits. `Request` is the
  loop, written imperatively. It is proved equal to the recursive
  specification `Perform`, and the policy lemmas are proved about that.
- **Chat** (`chat.dfy`, module `Chat`). This part covers:
  - the request bodies of `Chat` and `ChatStream`;
  - the defaulting of nil parameters to `DefaultChatRequestParams` (random
    seed 42069, 4000 tokens);
  - the stream decoder.

  The decoder reads line after line. It skips a lone line break and any line
  that lacks the `data: ` prefix. It trims the payload, and stops at
  `[DONE]`. A payload that fails to decode becomes an error element, and
  decoding goes on. A read error other than end of input becomes a final
  error element.

  The goroutine and its channel become the method `DecodeStream`, which
  returns the whole sequence. It is proved equal to the recursive
  specification `Decoded`. `DecodedMatchesPayloads` states `Decoded` as the
  payloads of the lines before the first sentinel, each decoded, followed by
  a read error only when reading failed.
- **FIM** (`fim.dfy`, module `Fim`). The request body has five fixed keys. A
  `stop` key is added exactly when a stop list is given, even an empty one.
  The reply is dispatched onto the typed response.

JSON decoding is a parameter throughout: `decode` for one stream payload,
`parse` for a buffered body, and `toStruct` for the mapping onto a typed
response. Floating-point fields are IEEE-754 bit patterns that are only
copied. Stream lines are sequences of Unicode characters, and white space is
the set recognised by Go's `unicode.IsSpace`.

Four behaviours of the code are easy to misread; the model follows
client.go and chat.go:

- When the attempts run out on a retryable status, the result is an HTTP
  error with that status (client.go:111-113), not a connection error.
- A wait follows every retryable status, the last attempt's included
  (client.go:104-106). No wait follows a connection error
  (client.go:98-103).
- An API error carries the status and the body text only (client.go:113).
  The error types with headers in errors.go are never built.
- The chat parameters have no tool fields (chat.go:26-31), so no tools are
  sent.

With `maxRetries` of 0 or less, which `NewMistralClient` keeps when the value
is negative, the loop makes no attempt. Go then dereferences a nil response at
client.go:111. The model reports this as `Error.NilResponse`.
`NilResponseIffNoAttempts` shows that it happens exactly when `maxRetries` is
at most 0.

## Model

| member | source | states |
|---|---|---|
| `Client.NewMistralClient` | client.go:36-56 | An empty key, an empty endpoint, zero retries and a zero timeout each take their default. Every non-zero value is kept, negative retries included. |
| `Client.NewMistralClientIdempotent` | client.go:36-56 | Constructing again from a client's own settings gives the same client. |
| `Client.NewMistralClientDefault` | client.go:59-65 | The endpoint is https://api.mistral.ai, with 5 retries and a 120 s timeout. An empty key falls back to MISTRAL_API_KEY. |
| `Client.NewCodestralClientDefault` | client.go:68-74 | The endpoint is https://codestral.mistral.ai, with 5 retries and a 120 s timeout. An empty key falls back to CODESTRAL_API_KEY, and then to MISTRAL_API_KEY. |
| `Client.Prepare` | client.go:81-93 | The prepared request has the call's verb, path and body, the client's endpoint and timeout, and exactly two headers: a bearer Authorization header with the key and a JSON Content-Type. |
| `Client.BackoffMs` | client.go:105 | The wait after a retryable status is a positive multiple of 500 ms. |
| `Client.Request` | client.go:95-133 | The imperative retry loop and status handling give exactly the attempts, the waits and the reply of the specification `Perform`. |
| `Client.RetryFromShape` | client.go:96-109 | From attempt i, the loop makes at most maxRetries attempts. It waits once per retryable status, and every attempt but the last was retried. It stops early only at a status that is not retryable. It gives up only on a connection error at the last attempt. |
| `Client.RetryPolicy` | client.go:95-118 | When maxRetries >= 1, there are 1 to maxRetries attempts and no nil response. The reply follows from the last outcome alone: connection error, HTTP error for a status >= 400, raw body when streaming, parsed body otherwise. |
| `Client.NilResponseIffNoAttempts` | client.go:95-111 | The nil-response failure happens if and only if maxRetries <= 0, and then no attempt is made. |
| `Client.BackoffsIncrease` | client.go:104-106 | The waits for attempts i..k-1 strictly increase and lie between (i+1) x 500 and k x 500 ms. |
| `Client.WaitsIncrease` | client.go:104-106 | The waits of a request strictly increase. Each is a multiple of 500 ms, from 500 up to maxRetries x 500 ms. |
| `Client.ExhaustedRetryableIsHttpError` | client.go:96-113 | When every attempt gets a retryable status, all maxRetries attempts are made. The waits are 500, 1000, ... ms, one per attempt. The result is an HTTP error with the last status, not a connection error. |
| `Client.ConnectionErrorsRetryWithoutWait` | client.go:96-103 | Connection errors on attempts 0..k-1, then a status that is not retryable, give k+1 attempts and no wait. |
| `Client.TerminalStatusNotRetried` | client.go:104-113 | A first status >= 400 that is not retryable gives exactly one attempt, no wait, and an HTTP error with that status and the body text. |
| `Client.ReplyMatchesMode` | client.go:111-132 | A buffered call never gets a raw body, and a streaming call never a parsed object. The transport never reports a wrong-representation or mapping error. |
| `Chat.EffectiveParams` | chat.go:89-91 | Nil parameters become the defaults (seed 42069, 4000 tokens, temperature and top_p 1). Given parameters are used as they are. |
| `Chat.ChatRequestData` | chat.go:93-100 | The chat body has exactly the keys model, messages, temperature, max_tokens, top_p and random_seed. Their values come from the model, the messages and the effective parameters. |
| `Chat.StreamRequestExtendsChat` | chat.go:129-137 | The streaming body is the chat body plus exactly one key, "stream": true. |
| `Chat.NilParamsUseDefaults` | chat.go:33-38 | Without parameters, both bodies send random_seed 42069 and max_tokens 4000, the same as passing the defaults. |
| `Chat.TrimLeftSpec` | chat.go:178 | Left trimming removes exactly the leading white space and leaves a suffix of the input. |
| `Chat.TrimRightSpec` | chat.go:178 | Right trimming removes exactly the trailing white space and leaves a prefix of the input. |
| `Chat.TrimSpaceSpec` | chat.go:178 | The trimmed payload is a slice of the input with only white space around it. It neither starts nor ends with white space. |
| `Chat.TrimSpacePadded` | chat.go:178 | Trimming white space on both sides gives back any text that neither starts nor ends with white space, whatever white space pads it. |
| `Chat.PaddedDataLine` | chat.go:176-183 | "data: " followed by white space, a core and white space is the sentinel when the core is [DONE], and otherwise the payload that is exactly the core. A data line of only white space is the empty payload, which goes to the JSON decoder. |
| `Chat.DoneIndex` | chat.go:180-183 | Gives the position of the first sentinel line, or the number of lines when there is none. |
| `Chat.DecodeStream` | chat.go:160-195 | The decode loop sends exactly the sequence `Decoded` gives for the body's lines and how the body ends. |
| `Chat.DecodedMatchesPayloads` | chat.go:160-195 | The output is one element per data line before the first sentinel, in reading order, each the decoded increment or a decode error. It ends with one read error only when no sentinel came and reading failed. |
| `Chat.DecodedAppend` | chat.go:185-193 | Lines before any sentinel are decoded independently of the lines after them. |
| `Chat.DoneStopsStream` | chat.go:180-183 | After the sentinel, neither the remaining lines nor how the body ends add any element. |
| `Chat.DecodeFailureContinues` | chat.go:186-190 | A payload that fails to decode yields exactly one error element at its position, and the lines after it are still decoded. |
| `Chat.SkippedLineYieldsNothing` | chat.go:170-176 | A lone line break, or a line without the "data: " prefix, yields no element. |
| `Chat.EofDropsFragment` | chat.go:162-164 | End of input adds no element, and a final fragment without a line break is discarded. |
| `Chat.ReadErrorIsLast` | chat.go:165-168 | A read error before any sentinel yields exactly one read-error element, and it is the last. |
| `Chat.DataLine` | chat.go:176-178 | "data: " + p + line break carries payload p when p is trimmed text other than [DONE]. |
| `Chat.TwoIncrementsThenDone` | chat.go:160-195 | Two data lines and then the sentinel yield exactly the two decoded increments, in order, whatever follows. |
| `Chat.Chat` | chat.go:88-119 | A transport error is returned as is. A parsed object becomes the typed response, or a mapping error. The wrong-representation error never occurs. |
| `Chat.ChatStream` | chat.go:122-200 | A transport error is returned as is. On success the result is the decoded sequence of the body. The wrong-representation error never occurs. |
| `Fim.FimRequestData` | fim.go:37-47 | The body always has model, prompt, suffix, max_tokens and temperature, copied from the parameters. It has "stop" iff a stop list was given, and no other key. |
| `Fim.StopAddsOneKey` | fim.go:45-47 | A stop list, even an empty one, adds exactly the "stop" key to the body and changes nothing else. |
| `Fim.FimCall` | fim.go:49 | FIM is a buffered POST to v1/fim/completions. |
| `Fim.FIM` | fim.go:36-66 | A transport error returns no response and that error. A parsed object becomes the typed response, or a mapping error. The wrong-representation error never occurs. |

## Left out

- URL parsing, request construction and their errors (client.go:77-86) are foreign calls. The prepared request keeps the endpoint and the path, not a built URL.
- The JSON serialisation of the request body (client.go:82) is left out, and so are the sending itself and per-attempt timeouts (client.go:91-97). The body is kept as a key/value map, and each attempt's outcome comes from the `server` parameter.
- `Client.Request`: Go builds the request once, with a `bytes.Buffer` body (client.go:83), and passes the same request to every `client.Do` (client.go:97). The buffer is a one-shot reader, so the first attempt drains it, and a retry under net/http then presumably fails on the client side instead of reaching the server. The model treats the prepared request as an immutable value. Whether a later attempt reaches the server, or gets a connection error, is left to the `server` parameter. So `ExhaustedRetryableIsHttpError` assumes a server that answers every attempt, which Go's net/http may never allow when maxRetries is 2 or more.
- `Chat.EffectiveParams`: `DefaultChatRequestParams` (chat.go:33-38) is an exported package variable, and `Chat` and `ChatStream` read its current fields (chat.go:89-91, 123-125). The model fixes the default at the variable's initial value (seed 42069, 4000 tokens, temperature and top_p 1). It does not capture a caller assigning new values to that variable. `Chat.NilParamsUseDefaults` therefore holds only while the variable keeps its initial value.
- `time.Sleep` (client.go:105) is recorded as a wait in milliseconds, not performed.
- JSON decoding (chat.go:187, client.go:126-130) and `mapToStruct` (chat.go:203-209) are function parameters. Which texts parse, and to what, is not modelled.
- The goroutine, the unbuffered channel and the closing of the body (chat.go:150-152) are not modelled. `ChatStream` returns the whole decoded sequence rather than a channel that fills while the caller reads. Blocking and backpressure are out of scope.
- Error messages are error tags with their cause, not formatted strings. This covers "(HTTP Error %d) %s", "error reading stream response: %w" and "invalid response type: %T".
- Bytes are modelled as Unicode characters. A body that is not valid UTF-8, and the way `bytes.TrimSpace` handles one, are not modelled.
- Integers are unbounded. Go's 64-bit `int` and `time.Duration` overflow cannot occur at realistic retry counts.
- A nil `*FIMRequestParams` passed to FIM dereferences nil and panics. Parameters are always present here.
- The response bodies of intermediate retryable attempts are never closed (a resource leak, not behaviour).
- Environment lookup is a map from variable name to value. An unset variable reads as the empty string.
- embeddings.go, models.go and errors.go are not part of this model. They are thin wrappers around `request`, or error types that no code path in client.go, chat.go or fim.go builds.
