# Luminary email drafter — a Dafny model of its decision and encoding core

Luminary is a small web app with a password gate and a wizard. The user types a
recipient and a topic, and a language model writes a draft. The user may edit the
draft's subject and body. The app then sends the message through a mailbox provider.

This project models the parts of the app that decide or encode something:

- **The send-email handler** (`send_email.dfy`, with `email_pattern.dfy`,
  `mime_message.dfy` and `base64.dfy`).
  - It checks its input in a fixed order.
  - It builds an Internet Message Format message (RFC 5322). The subject is carried as
    an RFC 2047 "B" encoded-word.
  - It encodes the message as unpadded base64url (section 5 of RFC 4648).
  - The model proves that the encoded message decodes back to exactly those bytes. It
    also proves that a reader splitting the message at its first empty line gets back
    the five header lines and the body.
- **The generate-draft handler** (`generate_draft.dfy`). It applies the same checks,
  after an API-key check. It then maps the chat completion's outcome to a reply.
- **The access gate** (`middleware.dfy`). It is a first-match-wins decision over the
  configured password, the path, the method, the session cookie and the query
  parameter `p`. The matcher decides which paths reach the gate at all.
- **The password endpoint** (`auth_route.dfy`). It replies 400, 500, 401 or 200, and
  sets a cookie only with 200.
- **The client wizard.**
  - The page's screen, stored draft and error message form a state machine
    (`wizard.dfy`).
  - The compose form (`compose_form.dfy`) and the draft preview (`draft_preview.dfy`)
    are classes whose methods update their fields.
  - `app_flow.dfy` connects the three.

The three route handlers and the gate are pure functions of their inputs. The outcome of
every external call is an input of the model: the mailbox provider's `messages.send`, the
chat completion, `JSON.parse`, and `req.json()` or `fetch`. The environment variables are
parameters. Text that is inspected byte by byte or encoded is a sequence of UTF-8 bytes.
Messages shown to the user are strings.

Three facts about the code shape the model:

- The gate in `src/middleware.ts:21` admits only the literal cookie value
  `authenticated`, which it sets itself after a correct `?p=` query. The password
  endpoint sets the cookie to the password itself (`src/app/api/auth/route.ts:17`). The
  resulting mismatch is listed under Findings.
- The login page's script never posts to the password endpoint. It reloads `/` with
  `?p=` and the password (`src/middleware.ts:79`).
- The password endpoint reads the request body before it looks at the configuration. A
  malformed body is therefore a 400 even when no password is configured.

## Model

| member | source | states |
|---|---|---|
| SendEmailRoute.Post | src/app/api/send-email/route.ts:6-100 | a message is handed to the provider only for input that passed all three checks, in order, with all three credentials present after trimming; what is handed over decodes to exactly the RFC 5322 message; the status is 200 exactly when a message was handed over and the provider delivered it, and a 200 reply carries the provider's message id; a provider throw after the hand-over, and a body that cannot be read, give 500 with "Failed to send email: " and the error's message; every reply is 200, 400 or 500 |
| SendEmailRoute.EncodeRaw | src/app/api/send-email/route.ts:72-76 | the standard encoding followed by the replacement chain uses only `A-Z a-z 0-9 - _`, has no `=`, and decodes as base64url to exactly the message bytes |
| SendEmailRoute.MissingFieldRefused | src/app/api/send-email/route.ts:11-16 | a missing or empty recipient, subject or body gives 400 "Recipient, subject, and email body are all required." and nothing is sent |
| SendEmailRoute.MalformedRecipientRefused | src/app/api/send-email/route.ts:19-25 | a recipient outside the address pattern gives 400 "Invalid email address format." and nothing is sent |
| SendEmailRoute.RecipientLineBreakIsMalformed | src/app/api/send-email/route.ts:19-33 | a recipient holding CR or LF is refused by the address check, never by the injection check |
| SendEmailRoute.InjectionGuardIsAboutSubject | src/app/api/send-email/route.ts:28-33 | the injection error is given exactly when the recipient is well formed and the subject holds CR or LF |
| SendEmailRoute.BodyIsNotChecked | src/app/api/send-email/route.ts:28-33 | the body's content, line breaks included, never changes the reply |
| SendEmailRoute.CredentialsCheckedLast | src/app/api/send-email/route.ts:11-45 | missing or blank credentials give 500 "Gmail API credentials are not configured." exactly when the input is otherwise valid |
| SendEmailRoute.SentMessage | src/app/api/send-email/route.ts:58-83 | for valid input and present credentials, the raw field is base64url without padding, and it decodes to a message that splits at its first empty line into the five header lines and the body |
| SendEmailRoute.ProviderFailureReported | src/app/api/send-email/route.ts:89-98 | a provider failure gives 500 with the error's message, or "An unexpected error occurred.", behind the prefix "Failed to send email: " |
| EmailPattern.AddressSplitIsUnique | src/app/api/send-email/route.ts:19-20 | an address has exactly one `@`, so its local part and domain are determined |
| EmailPattern.LineBreakIsNotAddress | src/app/api/send-email/route.ts:19-20 | no text with CR or LF matches the address pattern |
| EmailPattern.SimpleAddressAccepted | src/app/api/send-email/route.ts:19-20 | `a@b.com` matches the pattern |
| EmailPattern.NotAnAddressRejected | src/app/api/send-email/route.ts:19-20 | `not-an-email` does not match |
| EmailPattern.InjectedHeaderRejected | src/app/api/send-email/route.ts:19-20 | an address followed by a line feed and a `Bcc:` header does not match |
| MimeMessage.FindCrlf | src/app/api/send-email/route.ts:69 | the reader finds the first CRLF of a message, or reports that there is none |
| MimeMessage.FindCrlfAfterLine | src/app/api/send-email/route.ts:69 | a line without CR ends at the CRLF the join puts after it |
| MimeMessage.SplitAfterLine | src/app/api/send-email/route.ts:60-69 | a non-empty line without CR followed by CRLF is read as the first header line, and reading goes on with the rest of the message |
| MimeMessage.SplitJoin | src/app/api/send-email/route.ts:60-69 | non-empty header lines without CR, joined by CRLF with an empty line and any body, are read back exactly, even when the body holds CRLF and empty lines of its own |
| MimeMessage.EncodedWordHasNoCr | src/app/api/send-email/route.ts:59 | the RFC 2047 encoded subject holds neither CR nor LF, whatever the subject |
| MimeMessage.RawMessageSplits | src/app/api/send-email/route.ts:58-69 | for a recipient without CR, the message is the five header lines, one empty line and the body, and splitting it at the first empty line recovers both |
| Common.Trim | src/app/api/send-email/route.ts:36-38 | `trim` returns a result no longer than its input with no whitespace at either end |
| Common.TrimSpec | src/app/api/send-email/route.ts:36-38 | what `trim` keeps is a contiguous slice of its input with only whitespace before and after it, and it keeps nothing exactly when the input is all whitespace |
| Common.TrimStartDropsSpaces | src/app/api/send-email/route.ts:36-38 | the leading-whitespace pass removes only a run of whitespace at the front and keeps the rest as a suffix |
| Common.TrimEndDropsSpaces | src/app/api/send-email/route.ts:36-38 | the trailing-whitespace pass removes only a run of whitespace at the back and keeps the rest as a prefix |
| Common.AsciiIsOneLine | src/app/api/send-email/route.ts:61-65 | a literal without CR or LF yields bytes without CR or LF |
| Base64.Sextets | src/app/api/send-email/route.ts:72-73 | bytes split into 6-bit groups, 4 per 3 bytes, with a final 1 or 2 bytes giving 2 or 3 groups |
| Base64.Encode | src/app/api/send-email/route.ts:72-73 | standard base64 has length 4 times the number of quanta and uses only the standard alphabet and `=` |
| Base64.FromSextetsOfSextets | src/app/api/send-email/route.ts:72-73 | reassembling the 6-bit groups of any byte string gives back that byte string |
| Base64.SextetsOfFromSextets | src/app/api/send-email/route.ts:72-73 | any group sequence that reassembles into bytes is exactly the groups of those bytes, so only canonical encodings decode |
| Base64.UrlValuesOfDigits | src/app/api/send-email/route.ts:74-75 | the values of the url-safe digits of a group sequence are that sequence |
| Base64.EncodeUrlAlphabet | src/app/api/send-email/route.ts:74-76 | base64url without padding uses only `A-Z a-z 0-9 - _` and has no `=` |
| Base64.DecodeUrlOfEncodeUrl | src/app/api/send-email/route.ts:72-76 | decoding the base64url encoding of any bytes gives those bytes |
| Base64.EncodeUrlOfDecodeUrl | src/app/api/send-email/route.ts:72-76 | a string that decodes to some bytes is exactly their base64url encoding |
| Base64.DecodeUrlIff | src/app/api/send-email/route.ts:72-76 | a string decodes to some bytes if and only if it is their base64url encoding |
| Base64.TrimTrailingPadding | src/app/api/send-email/route.ts:76 | removing the trailing run of `=` removes exactly the padding and nothing of the digits |
| Base64.UrlSafeOfEncode | src/app/api/send-email/route.ts:72-76 | the replacement chain applied to standard base64 gives exactly unpadded base64url (sections 4 and 5 of RFC 4648) |
| GenerateDraftRoute.Post | src/app/api/generate-draft/route.ts:6-97 | the model is asked exactly when the key is configured, the body was read and the input passed all three checks; the prompt it gets is the template built from both fields and is one line; a draft reply is given exactly when the completion had content that parsed, and it carries exactly the parsed subject and body with status 200 |
| GenerateDraftRoute.ValidRequestDrafted | src/app/api/generate-draft/route.ts:47-81 | with a configured key and valid input the model is asked with the prompt from both fields, and content that parses gives the 200 reply with its subject and body |
| GenerateDraftRoute.UnparseableContentFails | src/app/api/generate-draft/route.ts:76-95 | content that `JSON.parse` rejects gives the generic 500 reply |
| GenerateDraftRoute.CaughtReply | src/app/api/generate-draft/route.ts:82-96 | an upstream API error keeps its status (500 when it has none or it is 0) and its message behind "Grok API error: "; any other failure is 500 with the generic message; no reply has status 0 |
| GenerateDraftRoute.PromptIsOneLine | src/app/api/generate-draft/route.ts:40-62 | once both fields are free of CR and LF, the user prompt built from them holds no line break |
| GenerateDraftRoute.KeyCheckedFirst | src/app/api/generate-draft/route.ts:8-14 | a missing or blank key gives 500 "xAI API key is not configured." for every request, even an unreadable one |
| GenerateDraftRoute.MissingFieldRefused | src/app/api/generate-draft/route.ts:23-28 | a missing or empty recipient or topic gives 400 "Both recipient and topic are required." and the model is not asked |
| GenerateDraftRoute.MalformedRecipientRefused | src/app/api/generate-draft/route.ts:31-37 | a recipient outside the address pattern gives 400 "Invalid email address format." |
| GenerateDraftRoute.RecipientLineBreakIsMalformed | src/app/api/generate-draft/route.ts:31-45 | a recipient with CR or LF is refused by the address check, never by the injection check |
| GenerateDraftRoute.InjectionGuardIsAboutTopic | src/app/api/generate-draft/route.ts:40-45 | the injection error is given exactly when the recipient is well formed and the topic holds CR or LF |
| GenerateDraftRoute.EmptyContentFails | src/app/api/generate-draft/route.ts:68-74 | a completion without content gives 500 "Failed to generate email draft." |
| GenerateDraftRoute.UpstreamErrorMapped | src/app/api/generate-draft/route.ts:82-96 | for valid input, an upstream API error gives its own status (500 if absent) and prefixed message; any other failure gives the generic 500 |
| Middleware.ConfiguredPassword | src/middleware.ts:3 | a missing or empty variable reads as the empty password, and any other value is the password |
| Middleware.FirstValue | src/middleware.ts:31 | the value of the first query pair named `p`, or none exactly when no pair has that name |
| Middleware.Without | src/middleware.ts:34 | removing `p` keeps exactly the pairs with another name |
| Middleware.WithoutSingle | src/middleware.ts:34 | a single pair is removed exactly when it has the name |
| Middleware.WithoutAppend | src/middleware.ts:34 | the two parts of a query are filtered independently, so with WithoutSingle the kept pairs keep their order and their repetitions |
| Middleware.Decide | src/middleware.ts:5-89 | the request passes exactly when no password is set, the path is exempt, the cookie is `authenticated`, or it is a POST to `/`; otherwise a non-empty first `p` equal to the password redirects with status 307 to `/`, its query being `Without` of the request's query (every `p` removed, all other pairs kept in order), setting the cookie `authenticated` for thirty days, http-only, secure, same-site lax, path `/`; otherwise the reply is the 401 HTML login page |
| Middleware.Gate | src/middleware.ts:91-93 | a path the matcher leaves out always passes, and a path it includes gets the middleware's decision; anything but a pass needs a matched, non-exempt path and a set password |
| Middleware.NoPasswordAllowsAll | src/middleware.ts:7-9 | with no password every request passes |
| Middleware.CookieDecides | src/middleware.ts:20-23 | outside the exempt paths and the login POST, a request passes exactly when its cookie is `authenticated`; the password itself as the cookie does not admit |
| Middleware.EmptyParamNeverAuthenticates | src/middleware.ts:31-32 | an empty `p` never leads to the redirect that sets the cookie |
| Middleware.LoginPageOtherwise | src/middleware.ts:47-88 | a request that meets no earlier rule gets status 401 with an HTML body |
| Middleware.AssetsBypassGate | src/middleware.ts:91-93 | paths starting `/_next/static`, `/_next/image` or `/favicon.ico` never reach the gate |
| Middleware.StartsWithTail | src/middleware.ts:92 | a path starting with `/` and then some text has that text at the start of the rest |
| Middleware.FaviconWildcard | src/middleware.ts:92 | `/favicon-ico` is also left out by the matcher, although the gate would have shown it the login page |
| AuthRoute.Post | src/app/api/auth/route.ts:3-28 | a cookie is set exactly when the status is 200; 200 happens exactly when the body was read, a password is configured, and the submitted password equals it; the cookie then holds the configured password with the thirty-day, http-only, secure, lax, path `/` attributes; every other reply is an error |
| AuthRoute.NotConfiguredRefusesAll | src/app/api/auth/route.ts:6-10 | with no password configured, every readable request gets 500 "Auth not configured" |
| AuthRoute.WrongPasswordRefused | src/app/api/auth/route.ts:12-14 | a different password gives 401 "Wrong password" and no cookie |
| AuthRoute.UnreadableBodyRefused | src/app/api/auth/route.ts:25-27 | an unreadable body gives 400 "Invalid request", configured or not |
| AuthRoute.IssuedCookieAdmittedOnlyIfLiteral | src/app/api/auth/route.ts:17 | the cookie the endpoint issues opens a page exactly when the password is literally `authenticated` |
| AuthRoute.SecretLoginStillLocked | src/app/api/auth/route.ts:16-24 | with the password `secret`, a correct login returns 200 and a cookie with which a `GET /` still gets the 401 login page from the whole gate, matcher included |
| AuthRoute.CorrectedPost | src/app/api/auth/route.ts:3-28 | the same statuses and bodies as the handler, with a cookie of the value the gate admits |
| AuthRoute.CorrectedCookieAdmitted | src/middleware.ts:20-23 | every cookie the corrected handler issues passes the whole gate on every path |
| Wizard.SendErrorMessage | src/app/page.tsx:46-54 | a reply that is not ok shows its `error`, or "Failed to send email." when it is absent or empty; a thrown value shows its message, or "Something went wrong." |
| Wizard.InitialInv | src/app/page.tsx:20-22 | the page starts on landing with no draft and an empty message, and the invariant holds |
| Wizard.StepPreservesInv | src/app/page.tsx:24-113 | every event the rendered screen offers keeps a draft stored on the preview, sending, success and error screens |
| Wizard.RunPreservesInv | src/app/page.tsx:88-106 | every run of offered events from a state with the invariant keeps it, so the guarded views always render |
| Wizard.NavigationKeepsDraft | src/app/page.tsx:77-95 | start, back from compose and back from preview change only the screen |
| Wizard.SendStoresCopy | src/app/page.tsx:29-31 | a send moves to the sending screen and stores the copy being sent |
| Wizard.SettleOutcome | src/app/page.tsx:44-56 | the success screen follows exactly an ok reply; the draft is kept; a refused send shows the server's error, or the fallback when there is none |
| Wizard.RetryResendsDraft | src/app/page.tsx:112 | retry on the error screen acts as a send of exactly the stored draft |
| Wizard.ResetForgets | src/app/page.tsx:59-63 | reset clears the draft and the message and returns to compose |
| Wizard.Home.constructor | src/app/page.tsx:20-22 | the fields start in the initial state |
| Wizard.Home.Start | src/app/page.tsx:77 | the fields change as `Step` says for start; offered only on the screen that renders it, and the draft invariant is kept |
| Wizard.Home.BackToLanding | src/app/page.tsx:84 | the fields change as `Step` says for back from compose; offered only on the screen that renders it, and the draft invariant is kept |
| Wizard.Home.DraftGenerated | src/app/page.tsx:24-27 | the draft is stored and the preview shown, as `Step` says; offered only on the screen that renders it, and the draft invariant is kept |
| Wizard.Home.HandleSend | src/app/page.tsx:29-42 | the fields change as `Step` says for a send, and the posted body carries the draft's recipient, subject and body; offered only on the screen that renders it, and the draft invariant is kept |
| Wizard.Home.SendSettled | src/app/page.tsx:44-56 | the fields change as `Step` says for the outcome; offered only on the screen that renders it, and the draft invariant is kept |
| Wizard.Home.BackToCompose | src/app/page.tsx:95 | the fields change as `Step` says for back from preview; offered only on the screen that renders it, and the draft invariant is kept |
| Wizard.Home.Retry | src/app/page.tsx:112 | a request is posted exactly when a draft is stored, and it is that draft's request; offered only on the screen that renders it, and the draft invariant is kept |
| Wizard.Home.Reset | src/app/page.tsx:59-63 | the fields change as `Step` says for reset; offered only on the screen that renders it, and the draft invariant is kept |
| Compose.SubmitEnabledIffPresent | src/components/ComposeForm.tsx:193 | submit is enabled exactly when nothing is loading and the trimmed request passes the route's presence check |
| Compose.TrimmedRecipientIsStable | src/components/ComposeForm.tsx:30-40 | the trimmed recipient has no whitespace at either end, and trimming it again changes nothing |
| Compose.ComposeForm.constructor | src/components/ComposeForm.tsx:16-19 | both fields start empty, not loading, with no error |
| Compose.ComposeForm.SetRecipient | src/components/ComposeForm.tsx:139-142 | typing into the enabled recipient input changes only the recipient |
| Compose.ComposeForm.SetTopic | src/components/ComposeForm.tsx:163-166 | typing into the enabled topic input changes only the topic |
| Compose.ComposeForm.BeginSubmit | src/components/ComposeForm.tsx:21-31 | the error is cleared and loading raised, and the request carries both fields trimmed and passes the route's presence check |
| Compose.ComposeForm.Settle | src/components/ComposeForm.tsx:33-48 | loading comes down after every outcome; a draft is handed on exactly on success, with the trimmed recipient and the server's subject and body; a failure shows the server's error or "Failed to generate draft.", or the thrown message or "Something went wrong." |
| Review.DraftPreview.constructor | src/components/DraftPreview.tsx:23-25 | subject and body start as the props, not editing |
| Review.DraftPreview.ToggleEdit | src/components/DraftPreview.tsx:233-236 | the toggle flips editing only, and only while not sending |
| Review.DraftPreview.EditSubject | src/components/DraftPreview.tsx:160-165 | editing changes only the subject |
| Review.DraftPreview.EditBody | src/components/DraftPreview.tsx:196-201 | editing changes only the body |
| Review.DraftPreview.HandleSend | src/components/DraftPreview.tsx:27-29 | behind the enabled button, the emitted draft is the original recipient with the current subject and body, both non-blank |
| AppFlow.RouteReplyDecidesScreen | src/app/page.tsx:44-56 | after the send-email route's reply, the page is on the success screen exactly when the message was sent and delivered; otherwise it shows the route's own error message |
| AppFlow.ComposeToPreview | src/components/ComposeForm.tsx:39-43 | a generated draft reaches the preview as the trimmed recipient with the server's subject and body |
| AppFlow.EditThenSend | src/components/DraftPreview.tsx:27-29 | after an edit of the subject, the posted request and the page's stored draft carry the original recipient, the new subject and the unchanged body |
| AppFlow.SendFailRetry | src/app/page.tsx:112 | after a refused send, retry posts the same request again and returns to the sending screen |
| EmailPattern.IsAddress | src/app/api/send-email/route.ts:19-20 | the address pattern: one `@` with a non-empty part before it and a dotted, non-empty part after it, none of them holding whitespace or a further `@`; pinned by AddressSplitIsUnique, LineBreakIsNotAddress and the three example lemmas |
| MimeMessage.JoinCrlf | src/app/api/send-email/route.ts:69 | `join("\r\n")`; SplitJoin proves a reader recovers the joined lines |
| MimeMessage.EncodedWord | src/app/api/send-email/route.ts:59 | the RFC 2047 "B" encoded subject; EncodedWordCarriesSubject and EncodedWordHasNoCr state what it holds |
| MimeMessage.EncodedWordCarriesSubject | src/app/api/send-email/route.ts:59 | the encoded word is the `=?utf-8?B?` prefix, the subject's base64 text and `?=`, and that text decodes to exactly the subject's bytes |
| MimeMessage.HeaderLines | src/app/api/send-email/route.ts:60-65 | the five header lines in the handler's order; RawMessageSplits proves they are read back |
| MimeMessage.RawMessage | src/app/api/send-email/route.ts:58-69 | the header lines, an empty line and the body joined by CRLF; RawMessageSplits proves the split back |
| Base64.UrlSafe | src/app/api/send-email/route.ts:72-76 | the replacement chain `+` to `-`, `/` to `_`, trailing `=` removed; UrlSafeOfEncode proves it turns padded base64 into unpadded base64url |
| Base64.EncodeVectorF | src/app/api/send-email/route.ts:73 | the byte `f` encodes as `Zg==`, which fixes the bit order and the two-character padding |
| Base64.EncodeVectorFo | src/app/api/send-email/route.ts:73 | `fo` encodes as `Zm8=`, with one padding character |
| Base64.EncodeVectorFoobar | src/app/api/send-email/route.ts:73 | `foobar` encodes as `Zm9vYmFy`, two whole quanta and no padding |
| Base64.EncodeUrlVector | src/app/api/send-email/route.ts:74-76 | the bytes 251 and 255 encode as `-_8`: the two characters of the URL alphabet and no padding |
| GenerateDraftRoute.Prompt | src/app/api/generate-draft/route.ts:62 | the user message sent to the model; PromptIsOneLine proves it is one line for checked input |
| Middleware.Exempt | src/middleware.ts:12-17 | the paths starting with `/api/` or `/_next/`, which Decide passes |
| Middleware.MatcherIncludes | src/middleware.ts:92 | the matcher read as an anchored regular expression; AssetsBypassGate and FaviconWildcard state what it leaves out |
| Wizard.Step | src/app/page.tsx:24-113 | what each handler does to the screen, the draft and the message; the Home methods are proved to carry it out, and the lemmas above state its properties |
| Wizard.Enabled | src/app/page.tsx:76-115 | the events the rendered screen offers; StepPreservesInv and RunPreservesInv are proved for them |
| Wizard.Inv | src/app/page.tsx:88-106 | the screens that read the draft have one; kept by every offered run |
| Compose.SubmitDisabled | src/components/ComposeForm.tsx:193 | the submit button's `disabled` expression; SubmitEnabledIffPresent relates it to the route's presence check |
| Compose.RequestOf | src/components/ComposeForm.tsx:30 | the posted body with both fields trimmed; BeginSubmit is proved to post it |
| Review.SendDisabled | src/components/DraftPreview.tsx:245 | the send button's `disabled` expression; HandleSend is proved to emit non-blank fields behind it |
| AppFlow.ClientSendResult | src/app/page.tsx:44-48 | `res.ok` for a status from 200 to 299, otherwise the reply's `error`; RouteReplyDecidesScreen uses it |
| AppFlow.PreviewButtonsFollowScreen | src/app/page.tsx:88-96 | with `sending` set on the sending screen, the preview's back button is enabled exactly when the page offers the way back, an enabled send button is a send the page offers, and the edit toggle is enabled only on the preview screen |

## Left out

- The Gmail OAuth2 client, the chat-completion client and `messages.send` are foreign libraries. Their outcomes are inputs (`SendOutcome`, `Completion`).
- Reading a request body and `JSON.parse` are inputs too (`RequestBody`, the `parse` parameter). Non-string JSON values in the fields are folded into "absent".
- `fetch` on the client is an input: `SendResult` and `DraftResult`. For the send-email route, `AppFlow.ClientSendResult` derives that input from the route's reply.
- The environment variables are parameters.
- Logging with `console.error` is left out.
- Strings are taken as their UTF-8 bytes. The UTF-16 to UTF-8 conversion of `Buffer.from` is not modelled.
- `\s` and `trim` are restricted to the six ASCII whitespace bytes. Unicode spaces such as U+00A0 are not modelled.
- The system prompt, the model name and the temperature of the completion request are constants with no decision attached, and are left out. The user prompt is modelled.
- The HTML, CSS and script of the login page are an opaque body. Only the status and content type are modelled.
- The redirect keeps the request's host and other URL parts, which the model does not represent.
- Rendering, animation and styling are left out. This covers LandingPage, SuccessView, ErrorDisplay, DraggableCard, MouseGradient and layout.
- Review.DraftPreview.EditSubject and EditBody: the preview stays mounted from the preview screen to the sending screen and keeps its editing mode, and its inputs have no `disabled` attribute. A user who sends while editing can keep typing during the send. The model allows those edits too. They change only the preview's local copies, never the draft the page stored or the request already posted.
- The browser's own form validation (`type="email"`, `required`) is left out.
- Wizard.Enabled: a draft callback that arrives after the compose form was left (its back button stays enabled while loading) is not offered as an event. The invariant is proved for the runs the rendered screens offer.
- Compose.DraftResult: a 200 reply whose `subject` or `body` is missing would hand `undefined` to the page. The model gives a successful result text for both.
- Next.js compiles the matcher with its own path syntax. The model reads it as the regular expression it spells, anchored at both ends, with `.` matching any byte but a line break.

## Findings

| source | as written | input that shows it | evidently intended | confidence | as-written member | corrected member |
|---|---|---|---|---|---|---|
| src/app/api/auth/route.ts:17 | the password endpoint sets the session cookie to the configured password, but the gate (src/middleware.ts:21) admits only the value `authenticated` | password `secret`, then a correct login and a `GET /` carrying the issued cookie: 200 from the endpoint, then the 401 login page | the cookie the endpoint issues opens the site | medium, not executed | AuthRoute.IssuedCookieAdmittedOnlyIfLiteral | AuthRoute.CorrectedCookieAdmitted |
