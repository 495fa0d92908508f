/** The `POST` handler of the send-email route: an ordered validation chain, then the
    raw message, encoded as base64url and handed to the mailbox provider's
    `messages.send`, whose outcome is an input of the model. */
module SendEmailRoute {
  import opened Common
  import Base64
  import EmailPattern
  import MimeMessage

  /** The three fields destructured from the JSON body; None when absent. */
  datatype SendRequest = SendRequest(recipient: Option<Text>, subject: Option<Text>, emailBody: Option<Text>)

  /** The mailbox credentials read from the environment. */
  datatype Credentials = Credentials(clientId: Option<Text>, clientSecret: Option<Text>, refreshToken: Option<Text>)

  /** What `gmail.users.messages.send` does: resolves with the new message's id (which
      may be missing), or throws. */
  datatype SendOutcome = Delivered(id: Option<Text>) | Threw(error: Thrown)

  datatype ReplyBody = Failure(error: string) | Success(messageId: Option<Text>)

  datatype Reply = Reply(status: int, body: ReplyBody)

  /** The reply, and the `raw` field handed to `messages.send` if the handler got that far. */
  datatype Handled = Handled(reply: Reply, raw: Option<string>)

  const MISSING_FIELDS := "Recipient, subject, and email body are all required."
  const INVALID_ADDRESS := "Invalid email address format."
  const INVALID_CHARACTERS := "Invalid characters detected in input."
  const NOT_CONFIGURED := "Gmail API credentials are not configured."
  const SEND_FAILED_PREFIX := "Failed to send email: "
  const UNEXPECTED := "An unexpected error occurred."

  /** `!recipient || !subject || !emailBody`. */
  predicate AllPresent(q: SendRequest)
  {
    Truthy(q.recipient) && Truthy(q.subject) && Truthy(q.emailBody)
  }

  /** The three input checks, in order, all passed. */
  predicate InputValid(q: SendRequest)
  {
    AllPresent(q)
    && EmailPattern.IsAddress(q.recipient.value)
    && !HasLineBreak(q.recipient.value) && !HasLineBreak(q.subject.value)
  }

  /** `!clientId || !clientSecret || !refreshToken` after trimming. */
  predicate CredentialsPresent(c: Credentials)
  {
    Configured(c.clientId) && Configured(c.clientSecret) && Configured(c.refreshToken)
  }

  /** `Buffer.from(message).toString("base64")` followed by the replacement chain. */
  function EncodeRaw(message: Text): (raw: string)
    ensures forall i | 0 <= i < |raw| :: Base64.IsUrlDigit(raw[i])
    ensures '=' !in raw
    ensures Base64.DecodeUrl(raw) == Some(message)
  {
    Base64.UrlSafeOfEncode(message);
    Base64.EncodeUrlAlphabet(message);
    Base64.DecodeUrlOfEncodeUrl(message);
    Base64.UrlSafe(Base64.Encode(message))
  }

  function FailedReply(e: Thrown): Reply
  {
    Reply(500, Failure(SEND_FAILED_PREFIX + MessageOr(e, UNEXPECTED)))
  }

  /** The handler. Every exception, including one thrown while reading the body, ends
      in the `catch` clause. */
  function Post(request: RequestBody<SendRequest>, credentials: Credentials, gmail: SendOutcome): (h: Handled)
    ensures h.raw.Some? ==> request.Parsed? && InputValid(request.value) && CredentialsPresent(credentials)
    ensures h.raw.Some? ==>
              Base64.DecodeUrl(h.raw.value)
              == Some(MimeMessage.RawMessage(request.value.recipient.value,
                                             request.value.subject.value,
                                             request.value.emailBody.value))
    ensures h.reply.status == 200 <==> h.raw.Some? && gmail.Delivered?
    ensures h.reply.status == 200 <==> h.reply.body.Success?
    ensures h.reply.status == 400 || h.reply.status == 500 || h.reply.status == 200
    ensures h.reply.status == 200 ==> gmail.Delivered? && h.reply.body == Success(gmail.id)
    ensures h.raw.Some? && gmail.Threw? ==> h.reply == FailedReply(gmail.error)
    ensures request.Unparseable? ==> h == Handled(FailedReply(request.error), None)
  {
    match request
    case Unparseable(e) => Handled(FailedReply(e), None)
    case Parsed(q) =>
      if !AllPresent(q) then
        Handled(Reply(400, Failure(MISSING_FIELDS)), None)
      else if !EmailPattern.IsAddress(q.recipient.value) then
        Handled(Reply(400, Failure(INVALID_ADDRESS)), None)
      else if HasLineBreak(q.recipient.value) || HasLineBreak(q.subject.value) then
        Handled(Reply(400, Failure(INVALID_CHARACTERS)), None)
      else if !CredentialsPresent(credentials) then
        Handled(Reply(500, Failure(NOT_CONFIGURED)), None)
      else
        var message := MimeMessage.RawMessage(q.recipient.value, q.subject.value, q.emailBody.value);
        var raw := EncodeRaw(message);
        match gmail
        case Delivered(id) => Handled(Reply(200, Success(id)), Some(raw))
        case Threw(e) => Handled(FailedReply(e), Some(raw))
  }

  /** A missing or empty field is refused before anything else and nothing is sent. */
  lemma MissingFieldRefused(q: SendRequest, c: Credentials, g: SendOutcome)
    requires !AllPresent(q)
    ensures Post(Parsed(q), c, g) == Handled(Reply(400, Failure(MISSING_FIELDS)), None)
  {
  }

  /** A recipient that does not match the pattern is refused as malformed. */
  lemma MalformedRecipientRefused(q: SendRequest, c: Credentials, g: SendOutcome)
    requires AllPresent(q) && !EmailPattern.IsAddress(q.recipient.value)
    ensures Post(Parsed(q), c, g) == Handled(Reply(400, Failure(INVALID_ADDRESS)), None)
  {
  }

  /** A recipient with CR or LF always fails the address check, never the injection
      check: the recipient half of the injection guard cannot fire. */
  lemma RecipientLineBreakIsMalformed(q: SendRequest, c: Credentials, g: SendOutcome)
    requires AllPresent(q) && HasLineBreak(q.recipient.value)
    ensures Post(Parsed(q), c, g).reply == Reply(400, Failure(INVALID_ADDRESS))
  {
    EmailPattern.LineBreakIsNotAddress(q.recipient.value);
  }

  /** The injection check fires exactly for a well-formed recipient with a subject that
      holds CR or LF. */
  lemma InjectionGuardIsAboutSubject(q: SendRequest, c: Credentials, g: SendOutcome)
    requires AllPresent(q)
    ensures Post(Parsed(q), c, g).reply == Reply(400, Failure(INVALID_CHARACTERS))
            <==> EmailPattern.IsAddress(q.recipient.value) && HasLineBreak(q.subject.value)
  {
    if HasLineBreak(q.recipient.value) {
      EmailPattern.LineBreakIsNotAddress(q.recipient.value);
    }
  }

  /** The body is never checked for line breaks: two requests that differ only in a
      non-empty body get the same reply. */
  lemma BodyIsNotChecked(r: Text, s: Text, b: Text, b': Text, c: Credentials, g: SendOutcome)
    requires |b| > 0 && |b'| > 0
    ensures Post(Parsed(SendRequest(Some(r), Some(s), Some(b))), c, g).reply
            == Post(Parsed(SendRequest(Some(r), Some(s), Some(b'))), c, g).reply
  {
  }

  /** Credentials are checked last: missing credentials give the configuration error
      exactly when the input is otherwise valid. */
  lemma CredentialsCheckedLast(q: SendRequest, c: Credentials, g: SendOutcome)
    requires !CredentialsPresent(c)
    ensures Post(Parsed(q), c, g).reply == Reply(500, Failure(NOT_CONFIGURED)) <==> InputValid(q)
  {
  }

  /** What is sent is a base64url string (no `+`, `/` or `=`) that decodes to the RFC
      5322 message: five header lines led by `To:` and the encoded subject, one empty
      line, then exactly the body. */
  lemma SentMessage(q: SendRequest, c: Credentials, g: SendOutcome)
    requires InputValid(q) && CredentialsPresent(c)
    ensures var h := Post(Parsed(q), c, g);
            && h.raw.Some?
            && (forall i | 0 <= i < |h.raw.value| :: Base64.IsUrlDigit(h.raw.value[i]))
            && '=' !in h.raw.value
            && Base64.DecodeUrl(h.raw.value).Some?
            && MimeMessage.SplitHeaderBody(Base64.DecodeUrl(h.raw.value).value)
               == Some((MimeMessage.HeaderLines(q.recipient.value, q.subject.value), q.emailBody.value))
  {
    var m := MimeMessage.RawMessage(q.recipient.value, q.subject.value, q.emailBody.value);
    MimeMessage.RawMessageSplits(q.recipient.value, q.subject.value, q.emailBody.value);
    assert Base64.DecodeUrl(Post(Parsed(q), c, g).raw.value) == Some(m);
  }

  /** A provider failure becomes a 500 whose message carries the prefix. */
  lemma ProviderFailureReported(q: SendRequest, c: Credentials, e: Thrown)
    requires InputValid(q) && CredentialsPresent(c)
    ensures Post(Parsed(q), c, Threw(e)).reply
            == Reply(500, Failure(SEND_FAILED_PREFIX + MessageOr(e, UNEXPECTED)))
  {
  }
}
