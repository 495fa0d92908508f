/** The `Home` page: a wizard whose screen, stored draft and error message are changed
    by the handlers of its child components. Each awaited fetch becomes two events: the
    request leaves, and later its outcome arrives. `Step` says what one event does to
    the three fields; the class `Home` holds the fields and carries out the events. */
module Wizard {
  import opened Common
  import SendEmailRoute

  datatype Screen = Landing | Compose | Preview | Sending | Success | Error

  datatype HomeState = HomeState(screen: Screen, draft: Option<DraftData>, errorMessage: string)

  /** What the page learns of the send-email request: an ok reply, a reply that is not ok
      with its optional `error` field, or a thrown value (the network failed or the reply
      was not JSON). */
  datatype SendResult = Sent | Refused(error: Option<string>) | FetchFailed(thrown: Thrown)

  datatype Event =
    | Start                       // the landing page's start button
    | BackToLanding               // the compose form's back button
    | DraftGenerated(data: DraftData)
    | SendBegun(data: DraftData)  // the preview's send button, or a retry
    | SendSettled(result: SendResult)
    | BackToCompose               // the preview's back button
    | Retry                       // the error screen's retry button
    | Reset                       // "compose another" or "start over"

  const SEND_FAILED := "Failed to send email."
  const SOMETHING_WRONG := "Something went wrong."

  function Initial(): HomeState
  {
    HomeState(Landing, None, "")
  }

  /** The message the error screen shows for a failed send. */
  function SendErrorMessage(r: SendResult): (m: string)
    requires !r.Sent?
    ensures r.Refused? ==> m == ErrorOr(r.error, SEND_FAILED)
    ensures r.FetchFailed? ==> m == MessageOr(r.thrown, SOMETHING_WRONG)
  {
    match r
    case Refused(e) => ErrorOr(e, SEND_FAILED)
    case FetchFailed(t) => MessageOr(t, SOMETHING_WRONG)
  }

  /** What one event does to the page's state. */
  function Step(s: HomeState, e: Event): HomeState
  {
    match e
    case Start => s.(screen := Compose)
    case BackToLanding => s.(screen := Landing)
    case DraftGenerated(d) => s.(screen := Preview, draft := Some(d))
    case SendBegun(d) => s.(screen := Sending, draft := Some(d))
    case SendSettled(r) =>
      if r.Sent? then s.(screen := Success)
      else s.(screen := Error, errorMessage := SendErrorMessage(r))
    case BackToCompose => s.(screen := Compose)
    case Retry => if s.draft.Some? then s.(screen := Sending) else s
    case Reset => HomeState(Compose, None, "")
  }

  /** The events the rendered screen offers: each button belongs to one screen, the
      preview's buttons are disabled while sending, and an outcome arrives only for a
      request in flight. */
  predicate Enabled(s: HomeState, e: Event)
  {
    match e
    case Start => s.screen == Landing
    case BackToLanding => s.screen == Compose
    case DraftGenerated(_) => s.screen == Compose
    case SendBegun(_) => s.screen == Preview
    case SendSettled(_) => s.screen == Sending
    case BackToCompose => s.screen == Preview
    case Retry => s.screen == Error
    case Reset => s.screen == Success || s.screen == Error
  }

  /** The screens that read the draft have one: preview, sending, success and error. */
  predicate Inv(s: HomeState)
  {
    (s.screen == Preview || s.screen == Sending || s.screen == Success || s.screen == Error)
    ==> s.draft.Some?
  }

  predicate ValidRun(s: HomeState, events: seq<Event>)
    decreases |events|
  {
    |events| == 0 || (Enabled(s, events[0]) && ValidRun(Step(s, events[0]), events[1..]))
  }

  function Run(s: HomeState, events: seq<Event>): HomeState
    decreases |events|
  {
    if |events| == 0 then s else Run(Step(s, events[0]), events[1..])
  }

  lemma InitialInv()
    ensures Inv(Initial()) && Initial().screen == Landing && Initial().errorMessage == ""
  {
  }

  /** Every offered event keeps the draft present where it is read. */
  lemma StepPreservesInv(s: HomeState, e: Event)
    requires Inv(s) && Enabled(s, e)
    ensures Inv(Step(s, e))
  {
  }

  /** From any state that keeps the invariant, every run of offered events keeps it. */
  lemma {:induction false} RunPreservesInv(s: HomeState, events: seq<Event>)
    requires Inv(s) && ValidRun(s, events)
    ensures Inv(Run(s, events))
    decreases |events|
  {
    if |events| > 0 {
      StepPreservesInv(s, events[0]);
      RunPreservesInv(Step(s, events[0]), events[1..]);
    }
  }

  /** Start and the compose form's back button move between landing and compose and
      leave the draft and the message alone. */
  lemma NavigationKeepsDraft(s: HomeState)
    ensures Step(s, Start) == HomeState(Compose, s.draft, s.errorMessage)
    ensures Step(s, BackToLanding) == HomeState(Landing, s.draft, s.errorMessage)
    ensures Step(s, BackToCompose) == HomeState(Compose, s.draft, s.errorMessage)
  {
  }

  /** A send stores the copy it sends, which may be the edited one. */
  lemma SendStoresCopy(s: HomeState, d: DraftData)
    ensures Step(s, SendBegun(d)).draft == Some(d) && Step(s, SendBegun(d)).screen == Sending
  {
  }

  /** An ok reply ends on the success screen; any other outcome ends on the error
      screen with the server's message, or the fallback when there is none. */
  lemma SettleOutcome(s: HomeState, r: SendResult)
    ensures Step(s, SendSettled(r)).screen == Success <==> r.Sent?
    ensures Step(s, SendSettled(r)).draft == s.draft
    ensures r == Refused(None) ==> Step(s, SendSettled(r)).errorMessage == SEND_FAILED
    ensures r.Refused? && r.error.Some? && r.error.value != "" ==>
              Step(s, SendSettled(r)).errorMessage == r.error.value
  {
  }

  /** Retry re-sends exactly the stored draft: on the error screen it acts as a send of
      that draft. */
  lemma RetryResendsDraft(s: HomeState)
    requires Inv(s) && s.screen == Error
    ensures Step(s, Retry) == Step(s, SendBegun(s.draft.value))
  {
  }

  /** Both reset buttons forget the draft and the message and return to compose. */
  lemma ResetForgets(s: HomeState)
    ensures Step(s, Reset) == HomeState(Compose, None, "")
  {
  }

  /** The JSON body `handleSend` posts to the send-email route. */
  function SendRequestOf(d: DraftData): SendEmailRoute.SendRequest
  {
    SendEmailRoute.SendRequest(Some(d.recipient), Some(d.subject), Some(d.body))
  }

  class Home {
    var screen: Screen
    var draft: Option<DraftData>
    var errorMessage: string

    function Model(): HomeState
      reads this
    {
      HomeState(screen, draft, errorMessage)
    }

    constructor()
      ensures Model() == Initial()
    {
      screen := Landing;
      draft := None;
      errorMessage := "";
    }

    /** `onStart`. */
    method Start()
      requires Inv(Model()) && Enabled(Model(), Event.Start)
      modifies this
      ensures Inv(Model())
      ensures Model() == Step(old(Model()), Event.Start)
    {
      screen := Compose;
    }

    /** The compose form's `onBack`. */
    method BackToLanding()
      requires Inv(Model()) && Enabled(Model(), Event.BackToLanding)
      modifies this
      ensures Inv(Model())
      ensures Model() == Step(old(Model()), Event.BackToLanding)
    {
      screen := Landing;
    }

    /** `handleDraftGenerated`. */
    method DraftGenerated(data: DraftData)
      requires Inv(Model()) && Enabled(Model(), Event.DraftGenerated(data))
      modifies this
      ensures Inv(Model())
      ensures Model() == Step(old(Model()), Event.DraftGenerated(data))
    {
      draft := Some(data);
      screen := Preview;
    }

    /** The first half of `handleSend`: the state updates, then the request it posts. */
    method HandleSend(data: DraftData) returns (request: SendEmailRoute.SendRequest)
      requires Inv(Model()) && Enabled(Model(), SendBegun(data))
      modifies this
      ensures Inv(Model())
      ensures Model() == Step(old(Model()), SendBegun(data))
      ensures request == SendRequestOf(data)
    {
      screen := Sending;
      draft := Some(data);
      request := SendRequestOf(data);
    }

    /** The second half of `handleSend`, once the request has settled. */
    method SendSettled(result: SendResult)
      requires Inv(Model()) && Enabled(Model(), Event.SendSettled(result))
      modifies this
      ensures Inv(Model())
      ensures Model() == Step(old(Model()), Event.SendSettled(result))
    {
      if result.Sent? {
        screen := Success;
      } else {
        errorMessage := SendErrorMessage(result);
        screen := Error;
      }
    }

    /** The preview's `onBack`. */
    method BackToCompose()
      requires Inv(Model()) && Enabled(Model(), Event.BackToCompose)
      modifies this
      ensures Inv(Model())
      ensures Model() == Step(old(Model()), Event.BackToCompose)
    {
      screen := Compose;
    }

    /** The error screen's `onRetry`: `draft && handleSend(draft)`. */
    method Retry() returns (request: Option<SendEmailRoute.SendRequest>)
      requires Inv(Model()) && Enabled(Model(), Event.Retry)
      modifies this
      ensures Inv(Model())
      ensures Model() == Step(old(Model()), Event.Retry)
      ensures request.Some? <==> old(draft).Some?
      ensures request.Some? ==> request.value == SendRequestOf(old(draft).value)
    {
      if draft.Some? {
        screen := Sending;
        request := Some(SendRequestOf(draft.value));
      } else {
        request := None;
      }
    }

    /** `handleReset`. */
    method Reset()
      requires Inv(Model()) && Enabled(Model(), Event.Reset)
      modifies this
      ensures Inv(Model())
      ensures Model() == Step(old(Model()), Event.Reset)
    {
      draft := None;
      errorMessage := "";
      screen := Compose;
    }
  }
}
