/** The /chat endpoint of the gateway (newChatHandler in cmd/server/main.go)
    as a decision function: from the request method, what the JSON decoder
    made of the body and the answer of the downstream chat service, it
    yields the HTTP response written and the chat request forwarded, if
    any. */
module Handler {
  import opened Wrappers
  import opened Text
  import opened Json
  import Config

  /** The JSON object a client posts: {"prompt", "model", "images"}. */
  datatype ChatPayload = ChatPayload(prompt: string, model: string, images: seq<string>)

  /** What the second json.Decoder.Decode call found after the payload:
      the end of the body (io.EOF), or anything else (another value or a
      syntax error). */
  datatype Rest = EndOfInput | MoreInput

  /** What json.Decoder made of the request body. */
  datatype DecodedBody =
    | Malformed
    | Decoded(payload: ChatPayload, rest: Rest)

  /** ollama.ChatMessage and ollama.ChatRequest. */
  datatype ChatMessage = ChatMessage(role: string, content: string, images: seq<string>)
  datatype ChatRequest = ChatRequest(model: string, messages: seq<ChatMessage>, stream: bool)

  /** The outcome of the downstream Chat call: the content of the reply
      message, or the text of the error. */
  datatype BackendResult = BackendReply(content: string) | BackendError(text: string)

  datatype Response = Response(status: int, contentType: string, body: string)

  /** The response written and the request passed to the chat client; None
      when the client is never called. */
  datatype Exchange = Exchange(response: Response, forwarded: Option<ChatRequest>)

  /** The values newChatHandler closes over: the default model and the
      allow-list (empty: every model is allowed). */
  datatype HandlerConfig = HandlerConfig(defaultModel: string, allowedModels: seq<string>)

  const StatusOK := 200
  const StatusBadRequest := 400
  const StatusMethodNotAllowed := 405
  const StatusBadGateway := 502

  const SystemPrompt := "You are a helpful assistant."

  /** http.Error: the message and a line break, as plain text. */
  function ErrorResponse(status: int, msg: string): (r: Response)
    ensures r.status == status && r.contentType == "text/plain; charset=utf-8"
    ensures |r.body| == |msg| + 1 && r.body[..|msg|] == msg && r.body[|msg|] == '\n'
  {
    Response(status, "text/plain; charset=utf-8", msg + "\n")
  }

  /** The error message for a model outside a non-empty allow-list. */
  function NotAllowedMessage(allowed: seq<string>): (msg: string)
    requires allowed != []
    ensures "model not allowed: use " <= msg
    ensures |allowed| == 1 ==> msg[23..] == allowed[0]
    ensures |allowed| > 1 ==>
      "model not allowed: use one of " <= msg && msg[30..] == Join(allowed, ", ")
  {
    if |allowed| == 1 then "model not allowed: use " + allowed[0]
    else "model not allowed: use one of " + Join(allowed, ", ")
  }

  /** The model a request runs on: the trimmed requested model, or the
      default when the request names none. */
  function SelectModel(defaultModel: string, requested: string): (model: string)
    ensures AllSpace(requested) ==> model == defaultModel
    ensures !AllSpace(requested) ==> model != [] && IsTrimmed(model) && TrimSpace(requested) == model
  {
    var trimmed := TrimSpace(requested);
    if trimmed != [] then trimmed else defaultModel
  }

  /** The request for the chat service: no streaming, a fixed system
      message, then the user's prompt and images. */
  function BuildRequest(model: string, payload: ChatPayload): (req: ChatRequest)
    ensures req.model == model && !req.stream && |req.messages| == 2
    ensures req.messages[0] == ChatMessage("system", "You are a helpful assistant.", [])
    ensures req.messages[1] == ChatMessage("user", payload.prompt, payload.images)
  {
    ChatRequest(model, [ChatMessage("system", SystemPrompt, []),
                        ChatMessage("user", payload.prompt, payload.images)], false)
  }

  /** One /chat request, checked in the handler's order: method, JSON
      body, prompt, model; then one call of the chat client. */
  function HandleChat(cfg: HandlerConfig, verb: string, body: DecodedBody,
                      chat: ChatRequest -> BackendResult): (x: Exchange)
    ensures x.response.status in {StatusOK, StatusBadRequest, StatusMethodNotAllowed, StatusBadGateway}
    ensures x.forwarded.Some? <==> Admissible(cfg, verb, body)
    ensures x.response.status == StatusOK ==> x.forwarded.Some?
  {
    if verb != "POST" then
      Exchange(ErrorResponse(StatusMethodNotAllowed, "method not allowed"), None)
    else if body.Malformed? || body.rest != EndOfInput then
      Exchange(ErrorResponse(StatusBadRequest, "invalid JSON payload"), None)
    else if TrimSpace(body.payload.prompt) == [] then
      Exchange(ErrorResponse(StatusBadRequest, "prompt is required"), None)
    else
      var model := SelectModel(cfg.defaultModel, body.payload.model);
      if |cfg.allowedModels| > 0 && model !in cfg.allowedModels then
        Exchange(ErrorResponse(StatusBadRequest, NotAllowedMessage(cfg.allowedModels)), None)
      else
        var req := BuildRequest(model, body.payload);
        match chat(req)
        case BackendError(text) => Exchange(ErrorResponse(StatusBadGateway, text), Some(req))
        case BackendReply(content) =>
          Exchange(Response(StatusOK, "application/json", MarshalReply(content) + "\n"), Some(req))
  }

  // ---------------------------------------------------------------------
  // When a request reaches the chat service, stated on its own.

  /** The model a well-formed request asks for. */
  function RequestedModel(cfg: HandlerConfig, payload: ChatPayload): string
  {
    if AllSpace(payload.model) then cfg.defaultModel else TrimSpace(payload.model)
  }

  /** A POST whose body is exactly one JSON object, with a prompt that is
      not blank and a model the allow-list admits. */
  predicate Admissible(cfg: HandlerConfig, verb: string, body: DecodedBody)
  {
    && verb == "POST"
    && body.Decoded? && body.rest == EndOfInput
    && !AllSpace(body.payload.prompt)
    && (cfg.allowedModels == [] || RequestedModel(cfg, body.payload) in cfg.allowedModels)
  }

  // ---------------------------------------------------------------------
  // The rejections, in the order the handler checks them.

  lemma NonPostRejected(cfg: HandlerConfig, verb: string, body: DecodedBody,
                        chat: ChatRequest -> BackendResult)
    requires verb != "POST"
    ensures HandleChat(cfg, verb, body, chat)
         == Exchange(Response(405, "text/plain; charset=utf-8", "method not allowed\n"), None)
  {
  }

  lemma InvalidJsonRejected(cfg: HandlerConfig, body: DecodedBody,
                            chat: ChatRequest -> BackendResult)
    requires body.Malformed? || body.rest == MoreInput
    ensures HandleChat(cfg, "POST", body, chat)
         == Exchange(Response(400, "text/plain; charset=utf-8", "invalid JSON payload\n"), None)
  {
  }

  /** A blank prompt is refused before the model is looked at. */
  lemma BlankPromptRejected(cfg: HandlerConfig, payload: ChatPayload,
                            chat: ChatRequest -> BackendResult)
    requires AllSpace(payload.prompt)
    ensures HandleChat(cfg, "POST", Decoded(payload, EndOfInput), chat)
         == Exchange(Response(400, "text/plain; charset=utf-8", "prompt is required\n"), None)
  {
  }

  /** A model outside a non-empty allow-list is refused, and the message
      names the one allowed model, or all of them joined by ", ". */
  lemma DisallowedModelRejected(cfg: HandlerConfig, payload: ChatPayload,
                                chat: ChatRequest -> BackendResult)
    requires !AllSpace(payload.prompt)
    requires cfg.allowedModels != [] && RequestedModel(cfg, payload) !in cfg.allowedModels
    ensures var x := HandleChat(cfg, "POST", Decoded(payload, EndOfInput), chat);
      && x.forwarded == None
      && x.response.status == 400
      && x.response.contentType == "text/plain; charset=utf-8"
      && (|cfg.allowedModels| == 1 ==>
            x.response.body == "model not allowed: use " + cfg.allowedModels[0] + "\n")
      && (|cfg.allowedModels| > 1 ==>
            x.response.body == "model not allowed: use one of " + Join(cfg.allowedModels, ", ") + "\n")
  {
  }

  /** Every allowed model is named in the refusal. */
  lemma {:induction false} NotAllowedMessageNamesEach(allowed: seq<string>, k: nat)
    requires k < |allowed|
    ensures IsInfix(allowed[k], NotAllowedMessage(allowed))
  {
    if |allowed| == 1 {
      assert allowed[k] <= allowed[0];
      InfixExtendLeft(allowed[k], "model not allowed: use ", allowed[0]);
    } else {
      JoinContainsEach(allowed, ", ", k);
      InfixExtendLeft(allowed[k], "model not allowed: use one of ", Join(allowed, ", "));
    }
  }

  // ---------------------------------------------------------------------
  // What an admissible request does.

  /** The chat service gets exactly one request: the selected model, no
      streaming, the fixed system message, then the prompt and the images
      unchanged. A named model overrides the default after trimming. */
  lemma AdmissibleForwarded(cfg: HandlerConfig, payload: ChatPayload,
                            chat: ChatRequest -> BackendResult)
    requires Admissible(cfg, "POST", Decoded(payload, EndOfInput))
    ensures var x := HandleChat(cfg, "POST", Decoded(payload, EndOfInput), chat);
      && x.forwarded.Some?
      && x.forwarded.value.model == RequestedModel(cfg, payload)
      && !x.forwarded.value.stream
      && x.forwarded.value.messages
         == [ChatMessage("system", "You are a helpful assistant.", []),
             ChatMessage("user", payload.prompt, payload.images)]
  {
  }

  /** A forwarded request always runs on an allowed model. */
  lemma ForwardedModelAllowed(cfg: HandlerConfig, verb: string, body: DecodedBody,
                              chat: ChatRequest -> BackendResult)
    requires Admissible(cfg, verb, body)
    ensures var x := HandleChat(cfg, verb, body, chat);
      x.forwarded.Some? && (cfg.allowedModels == [] || x.forwarded.value.model in cfg.allowedModels)
  {
  }

  /** A reply is written as {"reply":...} and a line break, and reading the
      JSON back gives the content the chat service returned. */
  lemma ReplyRoundTrip(cfg: HandlerConfig, verb: string, body: DecodedBody,
                       chat: ChatRequest -> BackendResult)
    requires Admissible(cfg, verb, body)
    requires chat(BuildRequest(RequestedModel(cfg, body.payload), body.payload)).BackendReply?
    ensures var x := HandleChat(cfg, verb, body, chat);
      var r := x.response;
      && x.forwarded.Some?
      && r.status == 200 && r.contentType == "application/json"
      && r.body != [] && r.body[|r.body| - 1] == '\n'
      && ParseReply(r.body[..|r.body| - 1]) == Some(chat(x.forwarded.value).content)
  {
    var x := HandleChat(cfg, verb, body, chat);
    var content := chat(x.forwarded.value).content;
    assert (MarshalReply(content) + "\n")[..|MarshalReply(content)|] == MarshalReply(content);
    ParseMarshalReply(content);
  }

  /** A failing chat call is reported as 502 with the error text. */
  lemma UpstreamErrorReported(cfg: HandlerConfig, verb: string, body: DecodedBody,
                              chat: ChatRequest -> BackendResult)
    requires Admissible(cfg, verb, body)
    requires chat(BuildRequest(RequestedModel(cfg, body.payload), body.payload)).BackendError?
    ensures var x := HandleChat(cfg, verb, body, chat);
      x.forwarded.Some? && x.response == Response(502, "text/plain; charset=utf-8",
                             chat(x.forwarded.value).text + "\n")
  {
  }

  /** The chat service is consulted only for a forwarded request: when
      nothing is forwarded the response does not depend on it. */
  lemma RejectionIgnoresBackend(cfg: HandlerConfig, verb: string, body: DecodedBody,
                                chat1: ChatRequest -> BackendResult,
                                chat2: ChatRequest -> BackendResult)
    requires !Admissible(cfg, verb, body)
    ensures HandleChat(cfg, verb, body, chat1) == HandleChat(cfg, verb, body, chat2)
  {
  }

  /** The default model main computes with chooseDefaultModel is never
      refused: a request naming no model runs on it. */
  lemma DefaultModelNeverRejected(envModel: string, allowed: seq<string>, payload: ChatPayload,
                                  chat: ChatRequest -> BackendResult)
    requires !AllSpace(payload.prompt) && AllSpace(payload.model)
    ensures var cfg := HandlerConfig(Config.ChooseDefaultModel(envModel, allowed), allowed);
      var x := HandleChat(cfg, "POST", Decoded(payload, EndOfInput), chat);
      x.forwarded.Some? && x.forwarded.value.model == Config.ChooseDefaultModel(envModel, allowed)
  {
  }

  /** A reply of plain text is written as that text between {"reply":" and
      "}, followed by a line break. */
  lemma PlainReplyWritten(cfg: HandlerConfig, payload: ChatPayload, content: string,
                          chat: ChatRequest -> BackendResult)
    requires Admissible(cfg, "POST", Decoded(payload, EndOfInput))
    requires forall i :: 0 <= i < |content| ==> Plain(content[i])
    requires chat(BuildRequest(RequestedModel(cfg, payload), payload)) == BackendReply(content)
    ensures HandleChat(cfg, "POST", Decoded(payload, EndOfInput), chat).response
         == Response(200, "application/json", "{\"reply\":\"" + content + "\"}\n")
  {
    MarshalPlainReply(content);
  }

  /** The successful exchange of the handler's own test: prompt "hi", no
      model named, reply "hello there". */
  lemma SuccessExample(chat: ChatRequest -> BackendResult)
    requires forall req :: chat(req) == BackendReply("hello there")
    ensures var x := HandleChat(HandlerConfig("test-model", []), "POST",
                                Decoded(ChatPayload("hi", "", []), EndOfInput), chat);
      && x.response == Response(200, "application/json", "{\"reply\":\"hello there\"}\n")
      && x.forwarded == Some(ChatRequest("test-model",
           [ChatMessage("system", "You are a helpful assistant.", []),
            ChatMessage("user", "hi", [])], false))
  {
    var cfg := HandlerConfig("test-model", []);
    var payload := ChatPayload("hi", "", []);
    ExampleText();
    PlainReplyWritten(cfg, payload, "hello there", chat);
  }

  /** The facts about the test's strings that the example rests on. */
  lemma ExampleText()
    ensures !AllSpace("hi") && AllSpace("")
    ensures forall i :: 0 <= i < |"hello there"| ==> Plain("hello there"[i])
    ensures "{\"reply\":\"" + "hello there" + "\"}\n" == "{\"reply\":\"hello there\"}\n"
  {
    assert !IsSpace("hi"[0]);
  }
}
