/** The dialog page (src/taskpane/confirm-dialog.tsx): reads the payload the send hook
    stored, renders `ConfirmDialog` with it, and wires the dialog's two buttons to
    messages for the send hook. The lemmas at the end close the loop between a button
    and the hook's decision. */
module DialogPage {
  import opened Wrappers
  import opened Json
  import opened Payload
  import opened Interceptor
  import opened ConfirmDialog

  /** What `sessionStorage.getItem('externalRecipientsData')` gives: no item (`null`),
      the stored text, or an exception (storage unavailable). */
  datatype Stored = NoItem | Item(text: Text) | StorageError

  /** Reads the dialog data: the empty default unless a non-empty stored text parses to
      a payload. An exception from `getItem` or `JSON.parse` is caught and keeps the
      default. */
  method LoadDialogData(stored: Stored) returns (dialogData: DialogData)
    ensures stored.NoItem? || stored.StorageError? ==> dialogData == EmptyDialogData
    ensures stored.Item? && Parse(stored.text).None? ==> dialogData == EmptyDialogData
    ensures stored.Item? && Parse(stored.text).Some? && DecodeDialogData(Parse(stored.text).value).Some? ==>
              dialogData == DecodeDialogData(Parse(stored.text).value).value
    ensures forall d :: stored == Item(Stringify(EncodeDialogData(d))) ==> dialogData == d
  {
    dialogData := EmptyDialogData;
    if stored.Item? {
      var storedData := stored.text;
      if Truthy(storedData) {
        var parsed := Parse(storedData);
        if parsed.Some? {
          var decoded := DecodeDialogData(parsed.value);
          if decoded.Some? {
            dialogData := decoded.value;
          }
        }
      }
    }
    forall d | stored == Item(Stringify(EncodeDialogData(d)))
      ensures dialogData == d
    {
      DecodeEncodeDialogData(d);
    }
  }

  /** Renders the dialog: the parsed payload's entries become the component's state. */
  method RenderDialog(dialogData: DialogData) returns (state: DialogState)
    ensures fresh(state) && state.Valid()
    ensures state.Recipients() == dialogData.externalRecipients
    ensures state.Attachments() == dialogData.attachments
  {
    var recipients := NewEntries(dialogData.externalRecipients);
    var attachments := NewEntries(dialogData.attachments);
    state := new DialogState(recipients, attachments);
  }

  /** The message of the "Schedule Send" button. */
  const SendAction: Json := JObj(map["action" := JStr("send")])

  /** The message of the "Cancel" button. */
  const CancelAction: Json := JObj(map["action" := JStr("cancel")])

  /** How a string passed to `messageParent` reaches the send hook's handler: as the
      `message` property of the event argument. */
  function Delivered(t: Text): (arg: HostValue)
    ensures HasMessage(arg) && MessageText(arg) == t
  {
    HObject(Some(HText(t)))
  }

  /** The parent window as the dialog page sees it: the messages sent to it so far. */
  class Parent {
    var messages: seq<Text>

    constructor ()
      ensures messages == []
    {
      messages := [];
    }

    /** `Office.context.ui.messageParent`. */
    method MessageParent(t: Text)
      modifies this
      ensures messages == old(messages) + [t]
    {
      messages := messages + [t];
    }
  }

  /** `sendMessageToParent`: one message, the serialisation of `message`. */
  method SendMessageToParent(parent: Parent, message: Json)
    modifies parent
    ensures parent.messages == old(parent.messages) + [Stringify(message)]
  {
    parent.MessageParent(Stringify(message));
  }

  /** `onSend`: exactly one message, `{action: 'send'}`. */
  method OnSend(parent: Parent)
    modifies parent
    ensures parent.messages == old(parent.messages) + [Stringify(SendAction)]
  {
    SendMessageToParent(parent, SendAction);
  }

  /** `onCancel`: exactly one message, `{action: 'cancel'}`. */
  method OnCancel(parent: Parent)
    modifies parent
    ensures parent.messages == old(parent.messages) + [Stringify(CancelAction)]
  {
    SendMessageToParent(parent, CancelAction);
  }

  /** A click on "Schedule Send": the button fires `onSend` only while it is enabled,
      that is while some recipient is selected. */
  method ClickScheduleSend(state: DialogState, parent: Parent)
    modifies parent
    ensures state.SendDisabled() ==> parent.messages == old(parent.messages)
    ensures !state.SendDisabled() ==> parent.messages == old(parent.messages) + [Stringify(SendAction)]
  {
    if !state.SendDisabled() {
      OnSend(parent);
    }
  }

  /** A click on "Cancel": the button is always enabled. */
  method ClickCancel(parent: Parent)
    modifies parent
    ensures parent.messages == old(parent.messages) + [Stringify(CancelAction)]
  {
    OnCancel(parent);
  }

  /** The send hook reads the two buttons' messages as "send" and "cancel". */
  lemma ButtonMessagesClassified()
    ensures Classify(Delivered(Stringify(SendAction))) == Send
    ensures Classify(Delivered(Stringify(CancelAction))) == Cancel
  {
    assert Property(SendAction, "action") == Some(JStr("send"));
    assert Property(CancelAction, "action") == Some(JStr("cancel"));
  }

  /** End to end: with the dialog open, "Schedule Send" lets the e-mail go, once the
      delayed delivery time was set; "Cancel" keeps it back. */
  lemma ButtonDecides(h: HostResponses)
    requires ReachesDialog(h)
    ensures h.event == MessageReceived(Delivered(Stringify(SendAction))) ==>
              OutcomeOf(Interception(h)) == (if h.delayDelivery == Some(Succeeded) then Allow else Block)
    ensures h.event == MessageReceived(Delivered(Stringify(CancelAction))) ==>
              OutcomeOf(Interception(h)) == Block
  {
    ButtonMessagesClassified();
    DialogDecision(h);
  }

  /** The payload the send hook stores is the one the dialog page loads back, with
      every recipient and attachment selected, so "Schedule Send" starts out enabled
      and both "Select All" boxes start out checked. */
  lemma StoredPayloadOpensEnabled(h: HostResponses)
    requires ReachesDialog(h) && h.sessionStorage
    ensures var data := BuildDialogData(Externals(h), Contribution(h.attachments));
            && StorePayload(data) in Interception(h)
            && DecodeDialogData(Parse(Stringify(EncodeDialogData(data))).value) == Some(data)
            && AnySelected(data.externalRecipients)
            && AllSelected(data.externalRecipients) && AllSelected(data.attachments)
  {
    var data := BuildDialogData(Externals(h), Contribution(h.attachments));
    InterceptionShowsDialog(h);
    SavedDialogTrace(Externals(h), Contribution(h.attachments), h);
    assert Interception(h)[5] == StorePayload(data);
    DecodeEncodeDialogData(data);
    assert data.externalRecipients[0].selected;
  }
}
