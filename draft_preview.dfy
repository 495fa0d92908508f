/** The draft preview: local copies of the subject and body that the user may edit, an
    editing toggle, and the buttons whose enablement depends on the page's `sending`
    flag. The recipient is a prop and is only displayed. */
module Review {
  import opened Common

  /** `sending || !subject.trim() || !body.trim()`. */
  predicate SendDisabled(sending: bool, subject: Text, body: Text)
  {
    sending || Trim(subject) == [] || Trim(body) == []
  }

  /** The back button and the edit toggle: `disabled={sending}`. */
  predicate BackDisabled(sending: bool)
  {
    sending
  }

  predicate EditToggleDisabled(sending: bool)
  {
    sending
  }

  class DraftPreview {
    const recipient: Text
    var subject: Text
    var body: Text
    var isEditing: bool

    /** Mounting with the page's draft as props. */
    constructor(draft: DraftData)
      ensures recipient == draft.recipient && subject == draft.subject && body == draft.body
      ensures !isEditing
    {
      recipient := draft.recipient;
      subject := draft.subject;
      body := draft.body;
      isEditing := false;
    }

    predicate CannotSend(sending: bool)
      reads this
    {
      SendDisabled(sending, subject, body)
    }

    /** The edit toggle: flips the mode and nothing else. */
    method ToggleEdit(sending: bool)
      requires !EditToggleDisabled(sending)
      modifies this
      ensures isEditing == !old(isEditing)
      ensures subject == old(subject) && body == old(body)
    {
      isEditing := !isEditing;
    }

    /** The subject input's `onChange`; the input is rendered only while editing. */
    method EditSubject(value: Text)
      requires isEditing
      modifies this
      ensures subject == value
      ensures body == old(body) && isEditing == old(isEditing)
    {
      subject := value;
    }

    /** The body textarea's `onChange`; rendered only while editing. */
    method EditBody(value: Text)
      requires isEditing
      modifies this
      ensures body == value
      ensures subject == old(subject) && isEditing == old(isEditing)
    {
      body := value;
    }

    /** `handleSend`, behind the enabled send button: the original recipient with the
        current subject and body. */
    method HandleSend(sending: bool) returns (data: DraftData)
      requires !CannotSend(sending)
      ensures data == DraftData(recipient, subject, body)
      ensures Trim(data.subject) != [] && Trim(data.body) != []
    {
      data := DraftData(recipient, subject, body);
    }
  }
}
