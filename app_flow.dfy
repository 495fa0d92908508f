/** How the page and its two components work together: the form's draft reaches the
    preview, the preview's copy reaches the send-email request, and the route's reply
    decides the screen the page ends on. */
module AppFlow {
  import opened Common
  import SendEmailRoute
  import Wizard
  import Compose
  import Review

  /** What the page's `fetch` makes of a reply of the send-email route: `res.ok` for a
      status from 200 to 299, otherwise the reply's `error` field. */
  function ClientSendResult(reply: SendEmailRoute.Reply): Wizard.SendResult
  {
    if 200 <= reply.status < 300 then Wizard.Sent
    else if reply.body.Failure? then Wizard.Refused(Some(reply.body.error))
    else Wizard.Refused(None)
  }

  /** The preview is rendered on the preview and sending screens with `sending` set on
      the latter. Its back button is enabled exactly when the page offers the way back,
      an enabled send button is a send the page offers, and the edit toggle is enabled only
      on the preview screen. */
  lemma PreviewButtonsFollowScreen(s: Wizard.HomeState, subject: Text, body: Text, d: DraftData)
    requires s.screen == Wizard.Preview || s.screen == Wizard.Sending
    ensures var sending := s.screen == Wizard.Sending;
            && (!Review.BackDisabled(sending) <==> Wizard.Enabled(s, Wizard.BackToCompose))
            && (!Review.SendDisabled(sending, subject, body) ==> Wizard.Enabled(s, Wizard.SendBegun(d)))
            && (!Review.EditToggleDisabled(sending) <==> s.screen == Wizard.Preview)
  {
  }

  /** The page reaches the success screen exactly when the route sent the message and
      the provider delivered it; otherwise it shows the route's own error message. */
  lemma RouteReplyDecidesScreen(s: Wizard.HomeState, q: SendEmailRoute.SendRequest,
                                c: SendEmailRoute.Credentials, g: SendEmailRoute.SendOutcome)
    ensures var h := SendEmailRoute.Post(Parsed(q), c, g);
            var t := Wizard.Step(s, Wizard.SendSettled(ClientSendResult(h.reply)));
            && (t.screen == Wizard.Success <==> h.raw.Some? && g.Delivered?)
            && (t.screen == Wizard.Error ==> h.reply.body.Failure? && t.errorMessage == ErrorOr(Some(h.reply.body.error), Wizard.SEND_FAILED))
  {
  }

  /** The form's submit with a generated draft mounts a preview whose fields are the
      trimmed recipient and the server's subject and body. */
  method ComposeToPreview(recipient: Text, topic: Text, subject: Text, body: Text)
    returns (shown: DraftData)
    requires Trim(recipient) != [] && Trim(topic) != []
    ensures shown == DraftData(Trim(recipient), subject, body)
  {
    var home := new Wizard.Home();
    home.Start();
    var form := new Compose.ComposeForm();
    form.SetRecipient(recipient);
    form.SetTopic(topic);
    var request := form.BeginSubmit();
    var generated := form.Settle(Compose.Generated(subject, body));
    home.DraftGenerated(generated.value);
    assert home.draft.Some?;
    var preview := new Review.DraftPreview(home.draft.value);
    shown := DraftData(preview.recipient, preview.subject, preview.body);
  }

  /** Editing the subject in the preview and sending posts the original recipient, the
      edited subject and the unchanged body, and the page stores that edited copy. */
  method EditThenSend(d: DraftData, newSubject: Text)
    returns (stored: Option<DraftData>, request: SendEmailRoute.SendRequest)
    requires Trim(newSubject) != [] && Trim(d.body) != []
    ensures stored == Some(DraftData(d.recipient, newSubject, d.body))
    ensures request == SendEmailRoute.SendRequest(Some(d.recipient), Some(newSubject), Some(d.body))
  {
    var home := new Wizard.Home();
    home.Start();
    home.DraftGenerated(d);
    var preview := new Review.DraftPreview(d);
    preview.ToggleEdit(false);
    preview.EditSubject(newSubject);
    var data := preview.HandleSend(false);
    assert data == DraftData(d.recipient, newSubject, d.body);
    ghost var before := home.Model();
    request := home.HandleSend(data);
    Wizard.SendStoresCopy(before, data);
    stored := home.draft;
  }

  /** A failed send followed by a retry posts the same request again, from the stored
      draft, and is back on the sending screen. */
  method SendFailRetry(d: DraftData, error: string)
    returns (first: SendEmailRoute.SendRequest, second: Option<SendEmailRoute.SendRequest>, screen: Wizard.Screen)
    ensures second == Some(first)
    ensures screen == Wizard.Sending
  {
    var home := new Wizard.Home();
    home.Start();
    home.DraftGenerated(d);
    first := home.HandleSend(d);
    home.SendSettled(Wizard.Refused(Some(error)));
    second := home.Retry();
    screen := home.screen;
  }
}
