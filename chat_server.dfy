/**
 * The backend's `POST /api/chat` (backend/server.js): the `auth` middleware,
 * then the handler, which validates `message`, obtains a Groq client (which
 * needs GROQ_API_KEY), sends the system prompt and the message, and answers
 * with the reply or with the error classification shared with the Next.js
 * route. The Groq call is the parameter `groq`; the key is `apiKey`.
 */
module ChatServer {
  import opened Wrappers
  import opened JsString
  import opened Http
  import ProviderErrors
  import AuthMiddleware
  import TokenAuth

  datatype Role = System | User

  /** One entry of the `messages` array sent to the provider. */
  datatype ChatMessage = ChatMessage(role: Role, content: string)

  /** What the provider call yields: the first choice's content, or an error with its message. */
  datatype Completion = Completion(content: string) | ProviderFailure(message: string)

  const MessageRequiredText := "Message is required"
  const MessageEmptyText := "Message cannot be empty"

  const SystemPrompt :=
    "You are TutorPy, an AI coding tutor.\n"
    + "Your job is to help users THINK, not solve problems.\n"
    + "Support only Python.\n"
    + "First decide if the problem statement is clear.\n"
    + "If unclear, ask concise clarifying questions about input, output, or constraints.\n"
    + "If clear, respond with:\n"
    + "'\U{2705} Thinking mode'\n"
    + "followed by a short explanation of how to approach the problem step by step.\n"
    + "Do not provide code.\n"
    + "Do not provide full algorithms.\n"
    + "Keep responses concise and encouraging (max 4\U{2013}5 sentences)."

  /**
   * The message `getGroqClient` throws without a key. It is written in
   * pieces, cut where the lemma `MissingKeyTextUnmatched` needs a seam.
   */
  const MissingKeyText :=
    "GROQ_API_KEY environment v" + "a" + "r" + "iable is " + "required. Ple"
    + "ase set it in Railway " + "environment v" + "a" + "r" + "iables."

  /** The two input checks, in order; None lets the request through. */
  function ValidateMessage(message: JsonField): (r: Option<HttpResponse>)
    ensures r.None? <==> message.Text? && exists i :: 0 <= i < |message.text| && !IsWhitespace(message.text[i])
    ensures r == Some(HttpResponse(400, ErrorBody(MessageRequiredText))) <==> !(message.Text? && message.text != "")
    ensures r == Some(HttpResponse(400, ErrorBody(MessageEmptyText))) <==>
      message.Text? && message.text != "" && forall i :: 0 <= i < |message.text| ==> IsWhitespace(message.text[i])
  {
    if !(message.Text? && message.text != "") then Some(HttpResponse(400, ErrorBody(MessageRequiredText)))
    else
      TrimEmptyIff(message.text);
      if |Trim(message.text)| == 0 then Some(HttpResponse(400, ErrorBody(MessageEmptyText)))
      else None
  }

  /** The `messages` array of the completion request: the system prompt, then the user's text as received. */
  function ProviderMessages(message: string): (ms: seq<ChatMessage>)
    ensures |ms| == 2 && ms[0] == ChatMessage(System, SystemPrompt)
    ensures forall i :: 0 <= i < |ms| && ms[i].role == User ==> ms[i].content == message
    ensures ms[|ms| - 1] == ChatMessage(User, message)
  {
    [ChatMessage(System, SystemPrompt), ChatMessage(User, message)]
  }

  /** The response the handler sends, for a message, the configured key and the provider. */
  function Chat(message: JsonField, apiKey: Option<string>, groq: seq<ChatMessage> -> Completion): (r: HttpResponse)
    ensures ValidateMessage(message).Some? ==> r == ValidateMessage(message).value
    ensures r.body.ReplyBody? <==>
      ValidateMessage(message).None? && Given(apiKey) && groq(ProviderMessages(message.text)).Completion?
    ensures r.body.ReplyBody? ==> r.status == 200 && r.body.reply == groq(ProviderMessages(message.text)).content
    ensures ValidateMessage(message).None? && !Given(apiKey) ==> r == ProviderErrors.Classify(MissingKeyText)
    ensures ValidateMessage(message).None? && Given(apiKey) && groq(ProviderMessages(message.text)).ProviderFailure? ==>
      r == ProviderErrors.Classify(groq(ProviderMessages(message.text)).message)
    ensures r.status in {200, 400, 500, 503}
  {
    match ValidateMessage(message)
    case Some(rejection) => rejection
    case None =>
      if !Given(apiKey) then ProviderErrors.Classify(MissingKeyText)
      else
        match groq(ProviderMessages(message.text))
        case Completion(content) => HttpResponse(200, ReplyBody(content))
        case ProviderFailure(m) => ProviderErrors.Classify(m)
  }

  /** The missing-key message names "API_KEY", never "API key", and no "rate limit". */
  lemma MissingKeyTextUnmatched()
    ensures !Includes(MissingKeyText, "API key")
    ensures !Includes(MissingKeyText, "rate limit")
  {
    AbsentCharExcludes(MissingKeyText, "API key", 4);
    MissingKeyTextPairFree();
    AbsentPairExcludes(MissingKeyText, "rate limit");
  }

  /** Nowhere in the missing-key message does "r" stand right before "a". */
  lemma MissingKeyTextPairFree()
    ensures PairFree(MissingKeyText, 'r', 'a')
  {
    var s1 := "GROQ_API_KEY environment v" + "a";
    PairFreeConcat("GROQ_API_KEY environment v", "a", 'r', 'a');
    var s2 := s1 + "r";
    PairFreeConcat(s1, "r", 'r', 'a');
    var s3 := s2 + "iable is ";
    PairFreeConcat(s2, "iable is ", 'r', 'a');
    var s4 := s3 + "required. Ple";
    PairFreeConcat(s3, "required. Ple", 'r', 'a');
    var s5 := s4 + "ase set it in Railway ";
    PairFreeConcat(s4, "ase set it in Railway ", 'r', 'a');
    var s6 := s5 + "environment v";
    PairFreeConcat(s5, "environment v", 'r', 'a');
    var s7 := s6 + "a";
    PairFreeConcat(s6, "a", 'r', 'a');
    var s8 := s7 + "r";
    PairFreeConcat(s7, "r", 'r', 'a');
    PairFreeConcat(s8, "iables.", 'r', 'a');
    assert s8 + "iables." == MissingKeyText;
  }

  /** A valid message without a configured key gets the generic 500, not the key-configuration error. */
  lemma MissingKeyIsGenericError(message: JsonField, groq: seq<ChatMessage> -> Completion)
    requires ValidateMessage(message).None?
    ensures Chat(message, None, groq) == HttpResponse(500, ErrorBody(ProviderErrors.GenericErrorText))
    ensures Chat(message, Some(""), groq) == HttpResponse(500, ErrorBody(ProviderErrors.GenericErrorText))
  {
    MissingKeyTextUnmatched();
  }

  /** A rejected message is answered without regard to the key or the provider. */
  lemma ValidationBeforeProvider(message: JsonField, k1: Option<string>, k2: Option<string>,
                                 g1: seq<ChatMessage> -> Completion, g2: seq<ChatMessage> -> Completion)
    requires ValidateMessage(message).Some?
    ensures Chat(message, k1, g1) == Chat(message, k2, g2)
    ensures Chat(message, k1, g1).status == 400
  {
  }

  /** The provider sees the message untrimmed: surrounding blanks reach it as typed. */
  lemma MessageSentUntrimmed(core: string, groq: seq<ChatMessage> -> Completion)
    requires core != "" && !IsWhitespace(core[0])
    ensures ValidateMessage(Text(" " + core + "\n")).None?
    ensures groq(ProviderMessages(" " + core + "\n")).Completion? ==>
      Chat(Text(" " + core + "\n"), Some("k"), groq).body.reply == groq([ChatMessage(System, SystemPrompt), ChatMessage(User, " " + core + "\n")]).content
  {
    assert (" " + core + "\n")[1] == core[0];
  }

  /**
   * The handler: writes the response of `Chat` onto `res` and returns the
   * messages it sent to the provider, if it got that far. A reply goes out
   * with `res.json`, keeping the status already set.
   */
  method ChatHandler(req: Request, res: Response, apiKey: Option<string>, groq: seq<ChatMessage> -> Completion)
    returns (sent: Option<seq<ChatMessage>>)
    modifies res
    ensures sent.Some? <==> ValidateMessage(req.message).None? && Given(apiKey)
    ensures sent.Some? ==> sent.value == ProviderMessages(req.message.text)
    ensures res.body == Some(Chat(req.message, apiKey, groq).body)
    ensures res.status == if res.body.value.ReplyBody? then old(res.status) else Chat(req.message, apiKey, groq).status
  {
    sent := None;
    var rejection := ValidateMessage(req.message);
    if rejection.Some? {
      res.Send(rejection.value.status, rejection.value.body);
      return;
    }
    if !Given(apiKey) {
      // getGroqClient throws inside the try block
      var r := ProviderErrors.Classify(MissingKeyText);
      res.Send(r.status, r.body);
      return;
    }
    var messages := ProviderMessages(req.message.text);
    sent := Some(messages);
    match groq(messages)
    case Completion(content) =>
      res.Json(ReplyBody(content));
    case ProviderFailure(m) =>
      var r := ProviderErrors.Classify(m);
      res.Send(r.status, r.body);
  }

  /**
   * `app.post('/api/chat', auth, handler)`: the handler runs only when the
   * middleware calls `next()`; otherwise the 401 stands and nothing is sent
   * to the provider.
   */
  method PostChat(req: Request, res: Response, verify: string -> Option<TokenAuth.Claims>,
                  apiKey: Option<string>, groq: seq<ChatMessage> -> Completion)
    returns (sent: Option<seq<ChatMessage>>)
    modifies req, res
    ensures AuthMiddleware.Decide(req.authorization, verify).Deny? ==>
      sent.None? && req.userId == old(req.userId) && res.status == 401 && res.body == Some(ErrorBody(AuthMiddleware.Decide(req.authorization, verify).error))
    ensures AuthMiddleware.Decide(req.authorization, verify).Proceed? ==>
      req.userId == Some(AuthMiddleware.Decide(req.authorization, verify).userId)
      && res.body == Some(Chat(req.message, apiKey, groq).body)
      && res.status == (if Chat(req.message, apiKey, groq).body.ReplyBody? then old(res.status)
                        else Chat(req.message, apiKey, groq).status)
      && (sent.Some? <==> ValidateMessage(req.message).None? && Given(apiKey))
      && (sent.Some? ==> req.message.Text? && sent.value == ProviderMessages(req.message.text))
  {
    var next := AuthMiddleware.Auth(req, res, verify);
    if next {
      sent := ChatHandler(req, res, apiKey, groq);
    } else {
      sent := None;
    }
  }
}
