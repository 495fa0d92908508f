/** The compose form: the recipient and topic the user types, a loading flag and an error
    message. Submitting posts the trimmed fields to the generate-draft route and, once
    the reply settles, either hands the draft to the page or shows the error. */
module Compose {
  import opened Common
  import GenerateDraftRoute

  /** What the form learns of the generate-draft request: an ok reply with the draft's
      subject and body, a reply that is not ok with its optional `error` field, or a
      thrown value. */
  datatype DraftResult = Generated(subject: Text, body: Text) | Refused(error: Option<string>) | FetchFailed(thrown: Thrown)

  const GENERATE_FAILED := "Failed to generate draft."
  const SOMETHING_WRONG := "Something went wrong."

  /** The JSON body `handleSubmit` posts: both fields trimmed. */
  function RequestOf(recipient: Text, topic: Text): GenerateDraftRoute.DraftRequest
  {
    GenerateDraftRoute.DraftRequest(Some(Trim(recipient)), Some(Trim(topic)))
  }

  /** `loading || !recipient.trim() || !topic.trim()`. */
  predicate SubmitDisabled(loading: bool, recipient: Text, topic: Text)
  {
    loading || Trim(recipient) == [] || Trim(topic) == []
  }

  /** The button is enabled exactly when the request it sends would pass the route's
      presence check and nothing is in flight. */
  lemma SubmitEnabledIffPresent(loading: bool, recipient: Text, topic: Text)
    ensures !SubmitDisabled(loading, recipient, topic)
            <==> !loading && GenerateDraftRoute.AllPresent(RequestOf(recipient, topic))
  {
  }

  /** The trimmed recipient the form sends and hands on has no surrounding whitespace, and
      trimming it again changes nothing. */
  lemma TrimmedRecipientIsStable(recipient: Text)
    ensures NoOuterSpace(Trim(recipient))
    ensures Trim(Trim(recipient)) == Trim(recipient)
  {
    var r := Trim(recipient);
    assert TrimStart(r) == r;
    assert TrimEnd(r) == r;
  }

  class ComposeForm {
    var recipient: Text
    var topic: Text
    var loading: bool
    var error: string

    constructor()
      ensures recipient == [] && topic == [] && !loading && error == ""
    {
      recipient := [];
      topic := [];
      loading := false;
      error := "";
    }

    predicate Disabled()
      reads this
    {
      SubmitDisabled(loading, recipient, topic)
    }

    /** The recipient input's `onChange`; the input is disabled while loading. */
    method SetRecipient(value: Text)
      requires !loading
      modifies this
      ensures recipient == value
      ensures topic == old(topic) && loading == old(loading) && error == old(error)
    {
      recipient := value;
    }

    /** The topic input's `onChange`; the input is disabled while loading. */
    method SetTopic(value: Text)
      requires !loading
      modifies this
      ensures topic == value
      ensures recipient == old(recipient) && loading == old(loading) && error == old(error)
    {
      topic := value;
    }

    /** The first half of `handleSubmit`: clear the error, raise the loading flag, and
      post the trimmed fields. The submit button is enabled. */
    method BeginSubmit() returns (request: GenerateDraftRoute.DraftRequest)
      requires !Disabled()
      modifies this
      ensures loading && error == ""
      ensures recipient == old(recipient) && topic == old(topic)
      ensures request == RequestOf(recipient, topic)
      ensures GenerateDraftRoute.AllPresent(request)
    {
      SubmitEnabledIffPresent(false, recipient, topic);
      request := RequestOf(recipient, topic);
      error := "";
      loading := true;
    }

    /** The second half of `handleSubmit`, once the reply has settled: on success the draft
      for `onDraftGenerated` (the trimmed recipient with the server's subject and body),
      otherwise the error message; in every case the loading flag comes down. */
    method Settle(result: DraftResult) returns (generated: Option<DraftData>)
      requires loading
      modifies this
      ensures !loading
      ensures recipient == old(recipient) && topic == old(topic)
      ensures generated.Some? <==> result.Generated?
      ensures result.Generated? ==>
                generated.value == DraftData(Trim(recipient), result.subject, result.body)
                && error == old(error)
      ensures result.Refused? ==> error == ErrorOr(result.error, GENERATE_FAILED)
      ensures result.FetchFailed? ==> error == MessageOr(result.thrown, SOMETHING_WRONG)
    {
      match result {
        case Generated(subject, body) =>
          generated := Some(DraftData(Trim(recipient), subject, body));
        case Refused(e) =>
          generated := None;
          error := ErrorOr(e, GENERATE_FAILED);
        case FetchFailed(t) =>
          generated := None;
          error := MessageOr(t, SOMETHING_WRONG);
      }
      loading := false;
    }
  }
}
