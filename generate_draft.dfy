/** The `POST` handler of the generate-draft route: the API-key check, the same input
    checks as the send-email route, then one chat completion whose outcome, and the
    parse of its content, are inputs of the model. */
module GenerateDraftRoute {
  import opened Common
  import EmailPattern

  /** The two fields destructured from the JSON body; None when absent. */
  datatype DraftRequest = DraftRequest(recipient: Option<Text>, topic: Option<Text>)

  /** What `chat.completions.create` does: resolves with the first choice's message
      content (None when there is no choice or no content), rejects with the client
      library's `APIError` (whose HTTP status may be missing), or throws anything else. */
  datatype Completion =
    | Completed(content: Option<Text>)
    | ApiError(status: Option<int>, message: string)
    | OtherFailure

  /** The `subject` and `body` properties of the object `JSON.parse` makes of the
      content; either may be missing. */
  datatype DraftJson = DraftJson(subject: Option<Text>, body: Option<Text>)

  datatype ReplyBody = Failure(error: string) | Draft(subject: Option<Text>, body: Option<Text>)

  datatype Reply = Reply(status: int, body: ReplyBody)

  /** The reply, and the user prompt sent to the model if the handler got that far. */
  datatype Handled = Handled(reply: Reply, prompt: Option<Text>)

  const KEY_NOT_CONFIGURED := "xAI API key is not configured."
  const MISSING_FIELDS := "Both recipient and topic are required."
  const INVALID_ADDRESS := "Invalid email address format."
  const INVALID_CHARACTERS := "Invalid characters detected in input."
  const NO_CONTENT := "Failed to generate email draft."
  const API_ERROR_PREFIX := "Grok API error: "
  const UNEXPECTED := "An unexpected error occurred while generating the draft."

  /** `!recipient || !topic`. */
  predicate AllPresent(q: DraftRequest)
  {
    Truthy(q.recipient) && Truthy(q.topic)
  }

  /** The three input checks, in order, all passed. */
  predicate InputValid(q: DraftRequest)
  {
    AllPresent(q)
    && EmailPattern.IsAddress(q.recipient.value)
    && !HasLineBreak(q.recipient.value) && !HasLineBreak(q.topic.value)
  }

  /** The user message of the completion request. */
  function Prompt(recipient: Text, topic: Text): Text
  {
    Ascii("Write an email to ") + recipient + Ascii(" about the following topic: ") + topic
  }

  /** The `catch` clause: an `APIError` keeps its status (`error.status || 500`, so a
      missing or zero status becomes 500) and its message behind the prefix; anything
      else is the generic 500. */
  function CaughtReply(c: Completion): (r: Reply)
    requires !c.Completed?
    ensures r.status != 0
    ensures c.ApiError? ==> r.body == Failure(API_ERROR_PREFIX + c.message)
    ensures c.ApiError? && c.status.Some? && c.status.value != 0 ==> r.status == c.status.value
    ensures c.ApiError? && (c.status.None? || c.status.value == 0) ==> r.status == 500
    ensures c.OtherFailure? ==> r == Reply(500, Failure(UNEXPECTED))
  {
    match c
    case ApiError(status, message) =>
      var code := if status.Some? && status.value != 0 then status.value else 500;
      Reply(code, Failure(API_ERROR_PREFIX + message))
    case OtherFailure => Reply(500, Failure(UNEXPECTED))
  }

  /** The handler. `parse` is `JSON.parse` applied to the content: None when it throws,
      which, like a body that cannot be read, ends in the generic 500. */
  function Post(apiKey: Option<Text>, request: RequestBody<DraftRequest>, completion: Completion,
                parse: Text -> Option<DraftJson>): (h: Handled)
    ensures h.prompt.Some? ==> Configured(apiKey) && request.Parsed? && InputValid(request.value)
    ensures h.prompt.Some? <==> Configured(apiKey) && request.Parsed? && InputValid(request.value)
    ensures h.prompt.Some? ==>
              h.prompt.value == Prompt(request.value.recipient.value, request.value.topic.value)
    ensures h.prompt.Some? ==> !HasLineBreak(h.prompt.value)
    ensures h.reply.body.Draft? <==>
              && h.prompt.Some? && completion.Completed?
              && Truthy(completion.content) && parse(completion.content.value).Some?
    ensures h.reply.body.Draft? ==>
              var d := parse(completion.content.value).value;
              h.reply == Reply(200, Draft(d.subject, d.body))
    ensures h.reply.status == 200 ==> h.reply.body.Draft? || completion.ApiError?
  {
    if !Configured(apiKey) then
      Handled(Reply(500, Failure(KEY_NOT_CONFIGURED)), None)
    else
      match request
      case Unparseable(_) => Handled(Reply(500, Failure(UNEXPECTED)), None)
      case Parsed(q) =>
        if !AllPresent(q) then
          Handled(Reply(400, Failure(MISSING_FIELDS)), None)
        else if !EmailPattern.IsAddress(q.recipient.value) then
          Handled(Reply(400, Failure(INVALID_ADDRESS)), None)
        else if HasLineBreak(q.recipient.value) || HasLineBreak(q.topic.value) then
          Handled(Reply(400, Failure(INVALID_CHARACTERS)), None)
        else
          PromptIsOneLine(q.recipient.value, q.topic.value);
          var prompt := Some(Prompt(q.recipient.value, q.topic.value));
          match completion
          case Completed(content) =>
            if !Truthy(content) then
              Handled(Reply(500, Failure(NO_CONTENT)), prompt)
            else
              (match parse(content.value)
               case None => Handled(Reply(500, Failure(UNEXPECTED)), prompt)
               case Some(d) => Handled(Reply(200, Draft(d.subject, d.body)), prompt))
          case _ => Handled(CaughtReply(completion), prompt)
  }

  /** Validated inputs give a prompt of a single line: the literals hold no line break
      and the injection check has ruled one out of both fields. */
  lemma PromptIsOneLine(recipient: Text, topic: Text)
    requires !HasLineBreak(recipient) && !HasLineBreak(topic)
    ensures !HasLineBreak(Prompt(recipient, topic))
  {
    var a := Ascii("Write an email to ");
    var b := Ascii(" about the following topic: ");
    AsciiIsOneLine("Write an email to ");
    AsciiIsOneLine(" about the following topic: ");
    var p := Prompt(recipient, topic);
    forall i | 0 <= i < |p| ensures p[i] != CR && p[i] != LF {
      if i < |a| {
        assert p[i] == a[i];
      } else if i < |a| + |recipient| {
        assert p[i] == recipient[i - |a|];
      } else if i < |a| + |recipient| + |b| {
        assert p[i] == b[i - |a| - |recipient|];
      } else {
        assert p[i] == topic[i - |a| - |recipient| - |b|];
      }
    }
  }

  /** A missing or blank key is refused before the body is read: the reply is the same
      whatever the request, even one that cannot be parsed. */
  lemma KeyCheckedFirst(k: Option<Text>, r: RequestBody<DraftRequest>, c: Completion,
                        parse: Text -> Option<DraftJson>)
    requires !Configured(k)
    ensures Post(k, r, c, parse) == Handled(Reply(500, Failure(KEY_NOT_CONFIGURED)), None)
  {
  }

  /** A missing or empty field is refused and the model is not asked. */
  lemma MissingFieldRefused(k: Option<Text>, q: DraftRequest, c: Completion,
                            parse: Text -> Option<DraftJson>)
    requires Configured(k) && !AllPresent(q)
    ensures Post(k, Parsed(q), c, parse) == Handled(Reply(400, Failure(MISSING_FIELDS)), None)
  {
  }

  /** A recipient that does not match the pattern is refused as malformed. */
  lemma MalformedRecipientRefused(k: Option<Text>, q: DraftRequest, c: Completion,
                                  parse: Text -> Option<DraftJson>)
    requires Configured(k) && AllPresent(q) && !EmailPattern.IsAddress(q.recipient.value)
    ensures Post(k, Parsed(q), c, parse) == Handled(Reply(400, Failure(INVALID_ADDRESS)), None)
  {
  }

  /** A recipient with CR or LF fails the address check, never the injection check. */
  lemma RecipientLineBreakIsMalformed(k: Option<Text>, q: DraftRequest, c: Completion,
                                      parse: Text -> Option<DraftJson>)
    requires Configured(k) && AllPresent(q) && HasLineBreak(q.recipient.value)
    ensures Post(k, Parsed(q), c, parse).reply == Reply(400, Failure(INVALID_ADDRESS))
  {
    EmailPattern.LineBreakIsNotAddress(q.recipient.value);
  }

  /** The injection check fires exactly for a well-formed recipient with a topic that
      holds CR or LF. */
  lemma InjectionGuardIsAboutTopic(k: Option<Text>, q: DraftRequest, c: Completion,
                                   parse: Text -> Option<DraftJson>)
    requires Configured(k) && AllPresent(q)
    ensures Post(k, Parsed(q), c, parse) == Handled(Reply(400, Failure(INVALID_CHARACTERS)), None)
            <==> EmailPattern.IsAddress(q.recipient.value) && HasLineBreak(q.topic.value)
  {
    var h := Post(k, Parsed(q), c, parse);
    if HasLineBreak(q.recipient.value) {
      EmailPattern.LineBreakIsNotAddress(q.recipient.value);
      assert h.reply.body == Failure(INVALID_ADDRESS);
    } else if !EmailPattern.IsAddress(q.recipient.value) {
      assert h.reply.body == Failure(INVALID_ADDRESS);
    } else if !HasLineBreak(q.topic.value) {
      assert h.prompt.Some?;
    }
  }

  /** The main path: with a configured key and valid input the model is asked with the
      prompt built from both fields, and content that parses becomes the 200 draft. */
  lemma ValidRequestDrafted(k: Option<Text>, q: DraftRequest, content: Text, d: DraftJson,
                            parse: Text -> Option<DraftJson>)
    requires Configured(k) && InputValid(q) && content != [] && parse(content) == Some(d)
    ensures Post(k, Parsed(q), Completed(Some(content)), parse)
            == Handled(Reply(200, Draft(d.subject, d.body)),
                       Some(Prompt(q.recipient.value, q.topic.value)))
  {
  }

  /** Content that `JSON.parse` rejects ends in the generic 500 of the `catch` clause. */
  lemma UnparseableContentFails(k: Option<Text>, q: DraftRequest, content: Text,
                                parse: Text -> Option<DraftJson>)
    requires Configured(k) && InputValid(q) && content != [] && parse(content).None?
    ensures Post(k, Parsed(q), Completed(Some(content)), parse).reply == Reply(500, Failure(UNEXPECTED))
  {
  }

  /** For valid input, a completion without content is reported as a failed draft. */
  lemma EmptyContentFails(k: Option<Text>, q: DraftRequest, content: Option<Text>,
                          parse: Text -> Option<DraftJson>)
    requires Configured(k) && InputValid(q) && !Truthy(content)
    ensures Post(k, Parsed(q), Completed(content), parse).reply == Reply(500, Failure(NO_CONTENT))
  {
  }

  /** An upstream error is reported with its own status (500 when it has none) and its
      message behind the prefix; any other failure gives the generic 500. */
  lemma UpstreamErrorMapped(k: Option<Text>, q: DraftRequest, c: Completion,
                            parse: Text -> Option<DraftJson>)
    requires Configured(k) && InputValid(q) && !c.Completed?
    ensures var r := Post(k, Parsed(q), c, parse).reply;
            && (c.ApiError? ==> r.body == Failure(API_ERROR_PREFIX + c.message)
                                && r.status == (if c.status.Some? && c.status.value != 0 then c.status.value else 500))
            && (c.OtherFailure? ==> r == Reply(500, Failure(UNEXPECTED)))
  {
  }
}
