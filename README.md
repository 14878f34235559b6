# Chat gateway core, modelled in Dafny

The gateway in `cmd/server/main.go` is a small HTTP server. It takes a chat
prompt on `POST /chat`, checks it, and forwards it to an Ollama-compatible
inference backend. It then relays the backend's reply as JSON. Environment
variables configure it: a default model, a comma-separated allow-list of
models and a downstream timeout.

This project models the decision logic of that file:

- **`Text`** (`text.dfy`): Go's `strings.TrimSpace`, over the full set of
  white-space characters that `unicode.IsSpace` accepts. Also `strings.Split`
  on one separator character and `strings.Join`.
- **`Config`** (`config.dfy`) models the start-up helpers:
  - `parseModelList`, as an imperative loop with its `seen` set. It is proved
    against a specification function `ModelList`: split, trim, drop empty
    names, drop repeated names.
  - `containsModel`, a loop with an early return.
  - `chooseDefaultModel`.
  - `parseTimeout`, in nanoseconds like Go's `time.Duration`.
- **`Json`** (`json.dfy`): what `json.Marshal` writes for the reply object
  `{"reply": ...}`, with Go's default HTML-safe escaping. Beside it is a reader
  for JSON string literals (RFC 8259, section 7), used to state that the
  encoding reads back as the content that was encoded.
- **`Handler`** (`handler.dfy`): the `/chat` handler as a pure function,
  `HandleChat`. Its inputs are the request method, what the JSON decoder made
  of the body, and the downstream chat client, given as a function. It returns
  the HTTP response and the request forwarded downstream, if any.
- **`Wrappers`** (`wrappers.dfy`): `Option`.

The handler checks a request in this order:

1. The method must be POST.
2. The body must be exactly one JSON value.
3. The prompt must not be blank.
4. The model must be on the allow-list.

Only then is the chat client called, at most once. The lemmas in `Handler`
state each rejection with its exact status and body. They prove that a request
is forwarded exactly when it is admissible, a property defined on its own
terms. They also give the exact shape of the forwarded request, and show that a
forwarded model is always on the allow-list. A successful reply's body reads
back as the backend's content, and a rejection does not depend on the backend
at all.

Two points about the code that a reader might not expect:

- **Trailing data after the JSON body:** trailing white space is accepted,
  because the second `json.Decoder.Decode` (main.go:96) then returns
  `io.EOF`. Any other trailing content is refused. `Handler.Rest` records
  that decoder outcome.
- **Images on the chat message:** `ChatMessage` at
  `internal/ollama/client.go:13-16` has no `Images` field, yet main.go:129
  sets one. The model follows the handler and forwards the images.

## Model

| member | source | states |
|---|---|---|
| Text.IsSpace | cmd/server/main.go:159 | The white-space set of unicode.IsSpace used by strings.TrimSpace; Text.IsSpaceAscii pins down its ASCII part |
| Text.IsSpaceAscii | cmd/server/main.go:159 | Within ASCII, exactly ' ', '\t', '\n', '\v', '\f' and '\r' are white space (so ',' is not) |
| Text.TrimSpace | cmd/server/main.go:159 | The result starts and ends with a non-space character (Unicode white space, as unicode.IsSpace); it is empty exactly when the input is all white space |
| Text.TrimSpaceOfPadded | cmd/server/main.go:109-110 | Trimming white-space padding around an already trimmed string gives back that string |
| Text.TrimSpaceFixesTrimmed | cmd/server/main.go:159 | A string is unchanged by trimming exactly when it has no surrounding white space (trimming is idempotent) |
| Text.Split | cmd/server/main.go:155 | Splitting always yields at least one piece (the empty string yields one empty piece) |
| Text.SplitPiecesLackSeparator | cmd/server/main.go:155 | No piece of a split contains the separator |
| Text.JoinSplit | cmd/server/main.go:155 | Joining the pieces with the separator gives back the split string |
| Text.SplitJoin | cmd/server/main.go:155 | Splitting the join of separator-free pieces gives back exactly those pieces |
| Text.SplitAtSeparator | cmd/server/main.go:155 | Splitting a + sep + b yields a followed by the pieces of b |
| Text.Join | cmd/server/main.go:118 | Joining no strings gives the empty string; the result starts with the first string (and the separator when there are two or more); Text.JoinSplit and Text.SplitJoin tie it to Split |
| Text.JoinContainsEach | cmd/server/main.go:118 | Every element of a joined list occurs as a contiguous piece of the joined string |
| Config.Trims | cmd/server/main.go:158-159 | Piece k of the result is the trim of piece k of the input, and the length is kept |
| Config.NonEmpty | cmd/server/main.go:160-162 | A string is in the result exactly when it is non-empty and in the input |
| Config.Dedup | cmd/server/main.go:163-167 | The result holds exactly the input's elements, each once |
| Config.DedupFirstOccurrence | cmd/server/main.go:163-167 | Elements kept by Dedup appear in the order of their first occurrence in the input |
| Config.ParseModelList | cmd/server/main.go:154-170 | The loop with its seen set returns ModelList(value): the comma-separated pieces, trimmed, without empty names and without repeats |
| Config.ModelListMembers | cmd/server/main.go:155-167 | A name is allowed exactly when it is non-empty and the trim of some comma-separated piece |
| Config.ModelListNamesTrimmed | cmd/server/main.go:159-162 | Every allowed name is non-empty and free of surrounding white space |
| Config.ModelListOrder | cmd/server/main.go:163-167 | Allowed names keep the order in which they first occur among the trimmed, non-empty pieces |
| Config.ModelListExample | cmd/server/main_test.go:283-293 | " gpt-oss:20b ,openthaigpt1.5-7b-instruct, gpt-oss:20b ,,llama3 " gives ["gpt-oss:20b", "openthaigpt1.5-7b-instruct", "llama3"] |
| Config.ContainsModel | cmd/server/main.go:183-190 | The linear search with early return answers true exactly when the candidate is in the list |
| Config.ChooseDefaultModel | cmd/server/main.go:172-181 | No allow-list: the trimmed base; otherwise a member of the list: the trimmed base when it is non-empty and listed, and in every other case (a blank base included, even when "" is listed) the first entry |
| Config.StartupDefaultAllowed | cmd/server/main.go:34-38 | The default computed at start-up is trimmed and, when the allow-list is non-empty, a non-empty member of it |
| Config.ParseTimeout | cmd/server/main.go:63-78 | The timeout is always positive; a blank value gives two minutes; any other result is what the duration parser returned |
| Config.ParseTimeoutKeepsPositive | cmd/server/main.go:68-77 | A positive duration parsed from non-blank text is used unchanged |
| Json.EscapeChar | cmd/server/main.go:139 | A character is written as itself or as an escape sequence starting with a backslash; Json.UnescapeChar reads each one back |
| Json.Escape | cmd/server/main.go:139 | The escaped text is at least as long as the input; Json.UnescapeEscape reads it back and Json.EscapeSafe shows it is safe text |
| Json.MarshalReply | cmd/server/main.go:138-139 | The reply object starts with {"reply":" and ends with "}; Json.ParseMarshalReply reads it back as the content |
| Json.EscapeSafe | cmd/server/main.go:139 | The escaped text never holds a raw control character, '<', '>', '&', U+2028 or U+2029 (HTML-safe escaping) |
| Json.MarshalReplySafe | cmd/server/main.go:138-139 | The whole reply object is safe text in the same sense |
| Json.UnescapeEscape | cmd/server/main.go:139 | Reading back the escaped body of a string literal gives the original string, for every string |
| Json.UnquoteQuote | cmd/server/main.go:139 | Reading back a quoted string literal gives the original string |
| Json.ParseMarshalReply | cmd/server/main.go:138-139 | The marshalled reply object reads back as exactly the reply content |
| Json.EscapeKeepsPlain | cmd/server/main.go:139 | Text without quotes, backslashes, control characters, HTML-sensitive characters or U+2028/U+2029 is written unchanged |
| Json.MarshalPlainReply | cmd/server/main.go:138-148 | The reply line for plain content is {"reply":"content"} followed by a line break |
| Handler.HandleChat | cmd/server/main.go:81-151 | The status is one of 200, 400, 405, 502; a request is forwarded exactly when it is admissible; a 200 comes only with a forwarded request |
| Handler.ErrorResponse | cmd/server/main.go:83 | http.Error: the given status, text/plain; charset=utf-8, and a body that is the message followed by exactly one line break |
| Handler.SelectModel | cmd/server/main.go:108-111 | A blank requested model yields the default; otherwise the requested model trimmed, which is then non-empty |
| Handler.BuildRequest | cmd/server/main.go:124-131 | The request has the given model, stream off, and two messages: the fixed system message, then the user's prompt and images unchanged; Handler.AdmissibleForwarded ties it to HandleChat |
| Handler.NotAllowedMessage | cmd/server/main.go:114-119 | The message starts with "model not allowed: use ", followed by the single allowed model, or by "one of " and all allowed models joined by ", "; Handler.NotAllowedMessageNamesEach shows every allowed model occurs in it |
| Handler.NonPostRejected | cmd/server/main.go:82-85 | Any method but POST gets 405 "method not allowed" as plain text, and nothing is forwarded |
| Handler.InvalidJsonRejected | cmd/server/main.go:89-99 | A body that does not decode, or has more after the first value, gets 400 "invalid JSON payload" and nothing is forwarded |
| Handler.BlankPromptRejected | cmd/server/main.go:100-103 | A blank prompt gets 400 "prompt is required", whatever model is named, and nothing is forwarded |
| Handler.DisallowedModelRejected | cmd/server/main.go:113-122 | A model outside a non-empty allow-list gets 400 naming the single allowed model, or all of them joined by ", ", and nothing is forwarded |
| Handler.NotAllowedMessageNamesEach | cmd/server/main.go:115-119 | Every allowed model occurs in the refusal message |
| Handler.AdmissibleForwarded | cmd/server/main.go:108-131 | An admissible request is forwarded once: the requested (trimmed) or default model, stream off, the fixed system message, then the prompt and images unchanged |
| Handler.ForwardedModelAllowed | cmd/server/main.go:113-131 | Every forwarded request names a model on the allow-list, when there is one |
| Handler.ReplyRoundTrip | cmd/server/main.go:138-148 | A backend reply gives 200, application/json, a body ending in a line break whose JSON reads back as the backend's content |
| Handler.UpstreamErrorReported | cmd/server/main.go:132-136 | A backend error gives 502 with the error text and a line break, as plain text |
| Handler.RejectionIgnoresBackend | cmd/server/main.go:82-122 | When a request is not admissible the response is the same whatever the backend would answer (the client is not called) |
| Handler.DefaultModelNeverRejected | cmd/server/main.go:108-122 | With the default chosen at start-up, a request that names no model is forwarded on that default |
| Handler.PlainReplyWritten | cmd/server/main.go:138-148 | A plain-text reply is written as {"reply":"content"} and a line break |
| Handler.SuccessExample | cmd/server/main_test.go:29-73 | Prompt "hi", default "test-model", reply "hello there": 200, body {"reply":"hello there"} and a line break, and the two-message request on test-model |

## Left out

- The HTTP client in `internal/ollama/client.go` is a parameter of
  `HandleChat`: a function from the chat request to a reply or an error text.
  The network, status checks and JSON decoding of the backend's answer are
  not part of this model.
- `client.go`'s fallback to 120 seconds for a non-positive timeout is not
  part of this model. `ParseTimeout` never yields such a timeout.
- `main` is not modelled as a program: reading the environment (`getenv`),
  registering routes, `/healthz`, listening and logging are left out. Its
  combination of `parseModelList` and `chooseDefaultModel` is stated by
  `Config.StartupDefaultAllowed`. All logging is left out: the line `main`
  prints when the default is replaced (main.go:40), `parseTimeout`'s
  warnings about an invalid or non-positive value (main.go:70, 74), and the
  handler's log of a failed chat call (main.go:133) and of a failed write
  (main.go:149).
- JSON decoding of the request body is not modelled character by character.
  `Handler.DecodedBody` records its outcome: a decode failure, or the payload
  and what the second decode found.
- `time.ParseDuration` is a parameter of `ParseTimeout`, yielding nanoseconds
  or nothing. Its syntax and int64 overflow are left out.
- The per-request context deadline (`context.WithTimeout`) and cancellation
  are not modelled. Neither is concurrency between requests.
- The 500 "failed to encode response" path is not modelled. Marshalling a
  struct with one string field cannot fail, and `MarshalReply` is total.
- A failing write of the response body is only logged by the handler, so it
  is not modelled.
- `http.Error`'s `X-Content-Type-Options: nosniff` header and the handler's
  other headers are left out. Only status, content type and body are
  modelled.
- Strings are sequences of Unicode code points. Invalid UTF-8, which
  `json.Marshal` replaces with U+FFFD, is not modelled.
- Go releases before 1.22 write U+0008 and U+000C as `\u0008` and `\u000c`.
  The model writes them as `\b` and `\f`, as current releases do.
- The JSON string reader used to state the round trip refuses `\u` escapes of
  UTF-16 surrogates. The encoder never writes them.
- The `"model not allowed"` value first assigned to the message is
  overwritten on both branches, so it never appears.
