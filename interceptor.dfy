/** The send hook `validateExternalRecipients` and the dialog hand-off
    `showExternalRecipientsDialog` of src/commands/commands.ts.

    The Office host is modelled by the answers it gives (`HostResponses`) and by the
    calls the add-in makes on it, in order (`HostCall`); `Completed(b)` is
    `event.completed({ allowEvent: b })`. The functions below give the trace of host
    calls of one send attempt; the methods at the end take the same steps on a `Host`
    object and are proved to make exactly those calls. */
module Interceptor {
  import opened Wrappers
  import opened Json
  import opened Addresses
  import opened Payload

  datatype Status = Succeeded | Failed

  /** An Office `AsyncResult`: a failure, or a success whose `value` may be null. */
  datatype AsyncResult<T> = AsyncFailed | AsyncSucceeded(value: Option<T>)

  /** `Office.EmailAddressDetails`; the external check throws when `emailAddress` is missing. */
  datatype EmailAddressDetails = EmailAddressDetails(displayName: string, emailAddress: Option<string>)

  /** `Office.AttachmentDetailsCompose`, the fields the hook reads. */
  datatype AttachmentDetails = AttachmentDetails(name: string, id: string)

  /** A value the host hands to the message handler: a string, an object with an
      optional `message` property, or anything else (null, undefined, a number). */
  datatype HostValue = HText(text: Text) | HObject(message: Option<HostValue>) | HOther

  /** The first dialog event after the dialog opened. */
  datatype DialogEvent = MessageReceived(arg: HostValue) | DialogClosed

  /** What the host answers during one send attempt. `to`, `cc` and `bcc` are `None`
      when the item has no such property (the `?.` then skips the call);
      `delayDelivery` is `None` when the item has no `delayDeliveryTime`. */
  datatype HostResponses = HostResponses(
    to: Option<AsyncResult<seq<EmailAddressDetails>>>,
    cc: Option<AsyncResult<seq<EmailAddressDetails>>>,
    bcc: Option<AsyncResult<seq<EmailAddressDetails>>>,
    attachments: AsyncResult<seq<AttachmentDetails>>,
    save: Status,
    sessionStorage: bool,
    display: Status,
    event: DialogEvent,
    now: int,
    delayDelivery: Option<Status>)

  /** The calls the hook makes on the host, in order. */
  datatype HostCall =
    | GetTo | GetCc | GetBcc | GetAttachments
    | SaveItem
    | StorePayload(data: DialogData)   // sessionStorage.setItem of JSON.stringify(data)
    | DisplayDialog
    | SetDelayDelivery(time: int)
    | CloseDialog
    | Completed(allowEvent: bool)

  datatype Outcome = Allow | Block | NoCompletion

  /** What the dialog's message amounts to for the message handler. */
  datatype DialogMessage = Send | Cancel | Other | Malformed

  /** The grace period before a confirmed message leaves, in milliseconds (15 minutes). */
  const DelayMillis: int := 15 * 60 * 1000

  // ---------------------------------------------------------------------------
  // Recipients

  /** `result.value || []` for a fetch that succeeded, nothing for one that failed. */
  function Contribution<T>(r: AsyncResult<seq<T>>): (s: seq<T>)
    ensures r.AsyncFailed? ==> s == []
    ensures r.AsyncSucceeded? && r.value.Some? ==> s == r.value.value
    ensures r.AsyncSucceeded? && r.value.None? ==> s == []
  {
    if r.AsyncSucceeded? then r.value.GetOr([]) else []
  }

  /** The recipients pushed by the three callbacks: To, then Cc, then Bcc. */
  function Gathered(to: AsyncResult<seq<EmailAddressDetails>>, cc: AsyncResult<seq<EmailAddressDetails>>,
                    bcc: AsyncResult<seq<EmailAddressDetails>>): (g: seq<EmailAddressDetails>)
    ensures |g| == |Contribution(to)| + |Contribution(cc)| + |Contribution(bcc)|
    ensures forall r :: r in g <==> r in Contribution(to) || r in Contribution(cc) || r in Contribution(bcc)
    ensures g[..|Contribution(to)|] == Contribution(to)
  {
    Contribution(to) + Contribution(cc) + Contribution(bcc)
  }

  /** The filter's callback: `isExternalDomain(emailAddress)`, and false when the check
      throws because the address is missing. */
  function CheckedExternal(r: EmailAddressDetails): (b: bool)
    ensures r.emailAddress.None? ==> !b
    ensures r.emailAddress.Some? ==> (b <==> IsExternalDomain(r.emailAddress.value))
  {
    match r.emailAddress
    case None => false
    case Some(a) => IsExternalDomain(a)
  }

  /** `a` is `b` with some elements left out, order kept. */
  predicate IsSubsequence<T(==)>(a: seq<T>, b: seq<T>)
    decreases |b|
  {
    if a == [] then true
    else if b == [] then false
    else (a[0] == b[0] && IsSubsequence(a[1..], b[1..])) || IsSubsequence(a, b[1..])
  }

  /** `recipients.filter(...)`: the external recipients, in the order gathered. */
  function ExternalOnly(rs: seq<EmailAddressDetails>): (ext: seq<EmailAddressDetails>)
    ensures |ext| <= |rs|
    ensures forall r :: r in ext ==> r.emailAddress.Some?
  {
    if rs == [] then []
    else if CheckedExternal(rs[0]) then [rs[0]] + ExternalOnly(rs[1..])
    else ExternalOnly(rs[1..])
  }

  /** The external list is an order-preserving subsequence of the gathered list, holding
      exactly the gathered recipients whose check says external, each as often as it was
      gathered; a recipient whose check throws is left out. */
  lemma {:induction false} ExternalOnlyKeepsExactlyExternals(rs: seq<EmailAddressDetails>)
    ensures IsSubsequence(ExternalOnly(rs), rs)
    ensures forall r :: r in ExternalOnly(rs) <==> r in rs && CheckedExternal(r)
    ensures forall r :: multiset(ExternalOnly(rs))[r] == (if CheckedExternal(r) then multiset(rs)[r] else 0)
  {
    if rs != [] {
      ExternalOnlyKeepsExactlyExternals(rs[1..]);
      assert rs == [rs[0]] + rs[1..];
      assert multiset(rs) == multiset([rs[0]]) + multiset(rs[1..]);
    }
  }

  /** A gathered recipient whose check says external is on the external list. */
  lemma ExternalKept(rs: seq<EmailAddressDetails>, r: EmailAddressDetails)
    requires r in rs && CheckedExternal(r)
    ensures r in ExternalOnly(rs)
  {
    ExternalOnlyKeepsExactlyExternals(rs);
  }

  /** The external list is empty exactly when no gathered recipient is external. */
  lemma NoExternalIff(rs: seq<EmailAddressDetails>)
    ensures ExternalOnly(rs) == [] <==> forall r :: r in rs ==> !CheckedExternal(r)
  {
    ExternalOnlyKeepsExactlyExternals(rs);
    var ext := ExternalOnly(rs);
    if ext != [] {
      assert ext[0] in ext;
    }
  }

  /** Filtering a concatenation filters each part. */
  lemma {:induction false} ExternalOnlyConcat(a: seq<EmailAddressDetails>, b: seq<EmailAddressDetails>)
    ensures ExternalOnly(a + b) == ExternalOnly(a) + ExternalOnly(b)
  {
    if a != [] {
      assert (a + b)[1..] == a[1..] + b;
      ExternalOnlyConcat(a[1..], b);
    } else {
      assert a + b == b;
    }
  }

  /** The external list keeps the To, Cc, Bcc order, and a list whose fetch failed
      contributes no entry to it. */
  lemma ExternalsInFieldOrder(to: AsyncResult<seq<EmailAddressDetails>>, cc: AsyncResult<seq<EmailAddressDetails>>,
                              bcc: AsyncResult<seq<EmailAddressDetails>>)
    ensures ExternalOnly(Gathered(to, cc, bcc))
         == ExternalOnly(Contribution(to)) + ExternalOnly(Contribution(cc)) + ExternalOnly(Contribution(bcc))
    ensures to.AsyncFailed? ==> ExternalOnly(Gathered(to, cc, bcc)) == ExternalOnly(Contribution(cc)) + ExternalOnly(Contribution(bcc))
  {
    ExternalOnlyConcat(Contribution(to) + Contribution(cc), Contribution(bcc));
    ExternalOnlyConcat(Contribution(to), Contribution(cc));
  }

  // ---------------------------------------------------------------------------
  // The dialog payload

  /** The `DialogData` built from the external recipients and the attachments: same
      length and order, names, addresses and ids copied, every entry selected. */
  function BuildDialogData(ext: seq<EmailAddressDetails>, atts: seq<AttachmentDetails>): (d: DialogData)
    requires forall r :: r in ext ==> r.emailAddress.Some?
    ensures |d.externalRecipients| == |ext| && |d.attachments| == |atts|
    ensures forall i :: 0 <= i < |ext| ==>
              d.externalRecipients[i] == Selectable(RecipientInfo(ext[i].displayName, ext[i].emailAddress.value), true)
    ensures forall i :: 0 <= i < |atts| ==>
              d.attachments[i] == Selectable(AttachmentInfo(atts[i].name, atts[i].id), true)
  {
    DialogData(seq(|ext|, i requires 0 <= i < |ext| => Selectable(RecipientInfo(ext[i].displayName, ext[i].emailAddress.value), true)),
               seq(|atts|, i requires 0 <= i < |atts| => Selectable(AttachmentInfo(atts[i].name, atts[i].id), true)))
  }

  // ---------------------------------------------------------------------------
  // The dialog's message

  /** `hasMessage`: an object whose `message` is a string. */
  function HasMessage(v: HostValue): (b: bool)
    ensures v.HText? || v.HOther? ==> !b
    ensures b ==> v.HObject? && v.message.Some? && v.message.value.HText?
  {
    v.HObject? && v.message.Some? && v.message.value.HText?
  }

  /** The message text the handler extracts: the `message` property, the value itself
      when it is a string, or the empty string. */
  function MessageText(v: HostValue): (t: Text)
    ensures HasMessage(v) ==> t == v.message.value.text
    ensures !HasMessage(v) && v.HText? ==> t == v.text
    ensures !HasMessage(v) && !v.HText? ==> t == EmptyText
  {
    if HasMessage(v) then v.message.value.text
    else if v.HText? then v.text
    else EmptyText
  }

  /** What the parsed message asks for. Reading `action` of null throws, as does an
      unparseable text; both reach the handler's catch. */
  function ActionOf(parsed: Option<Json>): (m: DialogMessage)
    ensures m == Malformed <==> parsed.None? || parsed.value.JNull?
    ensures m == Send <==>
              (parsed.Some? && parsed.value.JObj? && "action" in parsed.value.fields
               && parsed.value.fields["action"] == JStr("send"))
    ensures m == Cancel <==>
              (parsed.Some? && parsed.value.JObj? && "action" in parsed.value.fields
               && parsed.value.fields["action"] == JStr("cancel"))
  {
    match parsed
    case None => Malformed
    case Some(v) =>
      if v.JNull? then Malformed
      else if Property(v, "action") == Some(JStr("send")) then Send
      else if Property(v, "action") == Some(JStr("cancel")) then Cancel
      else Other
  }

  /** What the message handler makes of the dialog's message. */
  function Classify(arg: HostValue): (m: DialogMessage)
    ensures !HasMessage(arg) && !arg.HText? ==> m == Malformed
    ensures m == Send || m == Cancel ==> Parse(MessageText(arg)).Some? && Parse(MessageText(arg)).value.JObj?
  {
    ActionOf(Parse(MessageText(arg)))
  }

  // ---------------------------------------------------------------------------
  // The trace of one send attempt

  /** Where the hook stands: the callback that runs next, with what it was handed. The
      hook asks for To, Cc and Bcc in turn, each callback pushing what it got and asking
      for the next list; then it filters, asks for the attachments, saves, shows the
      dialog and waits for the dialog's first event. */
  datatype Stage =
    | AskTo
    | AskCc(gathered: seq<EmailAddressDetails>)
    | AskBcc(gathered: seq<EmailAddressDetails>)
    | Filter(gathered: seq<EmailAddressDetails>)
    | ShowDialog(ext: seq<EmailAddressDetails>, atts: seq<AttachmentDetails>)
    | AwaitEvent

  /** The dialog is only shown for recipients whose address could be read. */
  predicate StageOk(stage: Stage) {
    stage.ShowDialog? ==> forall r :: r in stage.ext ==> r.emailAddress.Some?
  }

  function StagesLeft(stage: Stage): nat {
    match stage
    case AskTo => 5
    case AskCc(_) => 4
    case AskBcc(_) => 3
    case Filter(_) => 2
    case ShowDialog(_, _) => 1
    case AwaitEvent => 0
  }

  /** No call of `t` but the last is an `event.completed`. */
  predicate CompletedOnlyAtEnd(t: seq<HostCall>) {
    forall i :: 0 <= i < |t| - 1 ==> !t[i].Completed?
  }

  /** The calls made by the dialog's event handlers on its first event. */
  function EventTrace(h: HostResponses): (t: seq<HostCall>)
    ensures t != [] ==> t[|t| - 1].Completed? && forall i :: 0 <= i < |t| - 1 ==> !t[i].Completed?
    ensures t == [] <==> h.event.MessageReceived? && Classify(h.event.arg) == Other
    ensures t != [] && t[|t| - 1].allowEvent ==> h.delayDelivery == Some(Succeeded)
  {
    match h.event
    case DialogClosed => [Completed(false)]
    case MessageReceived(arg) =>
      match Classify(arg)
      case Send =>
        (match h.delayDelivery
         case None => [CloseDialog, Completed(false)]
         case Some(st) => [SetDelayDelivery(h.now + DelayMillis), CloseDialog, Completed(st.Succeeded?)])
      case Cancel => [CloseDialog, Completed(false)]
      case Malformed => [CloseDialog, Completed(false)]
      case Other => []
  }

  /** The calls made from `stage` on. A missing recipient property stops the chain,
      since its `getAsync` is never called. */
  function Trace(stage: Stage, h: HostResponses): (t: seq<HostCall>)
    requires StageOk(stage)
    ensures CompletedOnlyAtEnd(t)
    decreases StagesLeft(stage)
  {
    match stage
    case AskTo =>
      if h.to.None? then [] else [GetTo] + Trace(AskCc(Contribution(h.to.value)), h)
    case AskCc(rs) =>
      if h.cc.None? then [] else [GetCc] + Trace(AskBcc(rs + Contribution(h.cc.value)), h)
    case AskBcc(rs) =>
      if h.bcc.None? then [] else [GetBcc] + Trace(Filter(rs + Contribution(h.bcc.value)), h)
    case Filter(rs) =>
      var ext := ExternalOnly(rs);
      if ext == [] then [Completed(true)]
      else [GetAttachments] + Trace(ShowDialog(ext, Contribution(h.attachments)), h)
    case ShowDialog(ext, atts) =>
      [SaveItem] +
      if h.save.Failed? then [Completed(true)]
      else
        (if h.sessionStorage then [StorePayload(BuildDialogData(ext, atts))] else [])
        + [DisplayDialog]
        + (if h.display.Failed? then [Completed(true)] else Trace(AwaitEvent, h))
    case AwaitEvent =>
      EventTrace(h)
  }

  /** The calls made by `validateExternalRecipients`. */
  function Interception(h: HostResponses): (t: seq<HostCall>)
    ensures t == [] <==> h.to.None?
    ensures t != [] ==> t[0] == GetTo
    ensures CompletedOnlyAtEnd(t)
  {
    Trace(AskTo, h)
  }

  /** The decision handed to `event.completed`, if any. */
  function OutcomeOf(calls: seq<HostCall>): (r: Outcome)
    ensures r == Allow ==> Completed(true) in calls
    ensures r == Block ==> Completed(false) in calls
    ensures (forall i :: 0 <= i < |calls| ==> !calls[i].Completed?) ==> r == NoCompletion
  {
    if calls != [] && calls[|calls| - 1].Completed? then
      if calls[|calls| - 1].allowEvent then Allow else Block
    else NoCompletion
  }

  predicate FieldsPresent(h: HostResponses) {
    h.to.Some? && h.cc.Some? && h.bcc.Some?
  }

  /** The external recipients of a send attempt whose recipient properties are all present. */
  function Externals(h: HostResponses): (ext: seq<EmailAddressDetails>)
    requires FieldsPresent(h)
    ensures forall r :: r in ext ==> r.emailAddress.Some?
  {
    ExternalOnly(Gathered(h.to.value, h.cc.value, h.bcc.value))
  }

  /** The send attempt gets as far as an open dialog. */
  predicate ReachesDialog(h: HostResponses) {
    FieldsPresent(h) && Externals(h) != [] && h.save.Succeeded? && h.display.Succeeded?
  }

  // ---------------------------------------------------------------------------
  // Properties of the trace

  /** With all three recipient properties present, the hook asks for To, Cc and Bcc and
      filters everything gathered. */
  lemma InterceptionGathers(h: HostResponses)
    requires FieldsPresent(h)
    ensures Interception(h) == [GetTo, GetCc, GetBcc] + Trace(Filter(Gathered(h.to.value, h.cc.value, h.bcc.value)), h)
  {
    var to, cc, bcc := Contribution(h.to.value), Contribution(h.cc.value), Contribution(h.bcc.value);
    assert Trace(AskBcc(to + cc), h) == [GetBcc] + Trace(Filter(to + cc + bcc), h);
    assert Trace(AskCc(to), h) == [GetCc] + Trace(AskBcc(to + cc), h);
    assert Trace(AskTo, h) == [GetTo] + Trace(AskCc(to), h);
  }

  /** With an external recipient, the hook asks for the attachments and goes on to save
      and show the dialog. */
  lemma InterceptionShowsDialog(h: HostResponses)
    requires FieldsPresent(h) && Externals(h) != []
    ensures Interception(h) == [GetTo, GetCc, GetBcc, GetAttachments] + Trace(ShowDialog(Externals(h), Contribution(h.attachments)), h)
  {
    InterceptionGathers(h);
  }

  /** What `showExternalRecipientsDialog` does once the save succeeded. */
  lemma SavedDialogTrace(ext: seq<EmailAddressDetails>, atts: seq<AttachmentDetails>, h: HostResponses)
    requires forall r :: r in ext ==> r.emailAddress.Some?
    requires h.save.Succeeded?
    ensures Trace(ShowDialog(ext, atts), h)
         == [SaveItem] + (if h.sessionStorage then [StorePayload(BuildDialogData(ext, atts))] else []) + [DisplayDialog]
            + (if h.display.Failed? then [Completed(true)] else EventTrace(h))
  {
  }

  /** With no external recipient the send is allowed at once: no attachment fetch, no
      save, no dialog. */
  lemma NoExternalAllowsWithoutDialog(h: HostResponses)
    requires FieldsPresent(h)
    requires forall r :: r in Gathered(h.to.value, h.cc.value, h.bcc.value) && r.emailAddress.Some? ==>
               !IsExternalDomain(r.emailAddress.value)
    ensures OutcomeOf(Interception(h)) == Allow
    ensures GetAttachments !in Interception(h) && SaveItem !in Interception(h)
    ensures DisplayDialog !in Interception(h)
  {
    InterceptionGathers(h);
    NoExternalIff(Gathered(h.to.value, h.cc.value, h.bcc.value));
    assert Interception(h) == [GetTo, GetCc, GetBcc, Completed(true)];
  }

  /** An external recipient leads to the attachment fetch and the save, and, once the
      save succeeded, to the dialog. */
  lemma ExternalLeadsToDialog(h: HostResponses, r: EmailAddressDetails)
    requires FieldsPresent(h)
    requires r in Gathered(h.to.value, h.cc.value, h.bcc.value)
    requires r.emailAddress.Some? && IsExternalDomain(r.emailAddress.value)
    ensures GetAttachments in Interception(h) && SaveItem in Interception(h)
    ensures h.save.Succeeded? ==> DisplayDialog in Interception(h)
  {
    ExternalKept(Gathered(h.to.value, h.cc.value, h.bcc.value), r);
    ExternalsLeadToDialog(h);
  }

  /** A non-empty external list leads to the attachment fetch and the save, and, once
      the save succeeded, to the dialog. */
  lemma ExternalsLeadToDialog(h: HostResponses)
    requires FieldsPresent(h) && Externals(h) != []
    ensures GetAttachments in Interception(h) && SaveItem in Interception(h)
    ensures h.save.Succeeded? ==> DisplayDialog in Interception(h)
  {
    InterceptionShowsDialog(h);
    var d := Trace(ShowDialog(Externals(h), Contribution(h.attachments)), h);
    assert d[0] == SaveItem;
    assert Interception(h)[3] == GetAttachments && Interception(h)[4] == SaveItem;
    if h.save.Succeeded? {
      SavedDialogTrace(Externals(h), Contribution(h.attachments), h);
      assert DisplayDialog in d;
    }
  }

  /** A failed attachment fetch still shows the dialog, with no attachment in the
      stored payload. */
  lemma AttachmentFailureStillShowsDialog(h: HostResponses)
    requires FieldsPresent(h) && Externals(h) != []
    requires h.attachments.AsyncFailed? && h.save.Succeeded?
    ensures DisplayDialog in Interception(h)
    ensures h.sessionStorage ==>
              StorePayload(DialogData(BuildDialogData(Externals(h), []).externalRecipients, [])) in Interception(h)
  {
    InterceptionShowsDialog(h);
    SavedDialogTrace(Externals(h), [], h);
    var data := BuildDialogData(Externals(h), []);
    assert data.attachments == [];
    if h.sessionStorage {
      assert Interception(h)[5] == StorePayload(data);
      assert Interception(h)[6] == DisplayDialog;
    } else {
      assert Interception(h)[5] == DisplayDialog;
    }
  }

  /** A failed save allows the send without asking: the dialog is never shown. */
  lemma SaveFailureFailsOpen(h: HostResponses)
    requires FieldsPresent(h) && Externals(h) != [] && h.save.Failed?
    ensures OutcomeOf(Interception(h)) == Allow
    ensures DisplayDialog !in Interception(h)
  {
    InterceptionShowsDialog(h);
    assert Interception(h) == [GetTo, GetCc, GetBcc, GetAttachments, SaveItem, Completed(true)];
  }

  /** A dialog that cannot be displayed allows the send. */
  lemma DisplayFailureFailsOpen(h: HostResponses)
    requires FieldsPresent(h) && Externals(h) != [] && h.save.Succeeded? && h.display.Failed?
    ensures OutcomeOf(Interception(h)) == Allow
  {
    InterceptionShowsDialog(h);
    SavedDialogTrace(Externals(h), Contribution(h.attachments), h);
  }

  /** Once the dialog is open, the trace is what came before, the dialog's display,
      and the handlers' calls. */
  lemma OpenDialogTrace(h: HostResponses)
    requires ReachesDialog(h)
    ensures exists pre :: Interception(h) == pre + [DisplayDialog] + EventTrace(h)
  {
    InterceptionShowsDialog(h);
    SavedDialogTrace(Externals(h), Contribution(h.attachments), h);
    var pre := [GetTo, GetCc, GetBcc, GetAttachments, SaveItem]
      + (if h.sessionStorage then [StorePayload(BuildDialogData(Externals(h), Contribution(h.attachments)))] else []);
    assert Interception(h) == pre + [DisplayDialog] + EventTrace(h);
  }

  /** The decision once the dialog is open. */
  lemma DialogDecision(h: HostResponses)
    requires ReachesDialog(h)
    ensures h.event.DialogClosed? ==> OutcomeOf(Interception(h)) == Block
    ensures h.event.MessageReceived? && Classify(h.event.arg) == Send ==>
              OutcomeOf(Interception(h)) == (if h.delayDelivery == Some(Succeeded) then Allow else Block)
    ensures h.event.MessageReceived? && Classify(h.event.arg) == Send && h.delayDelivery.Some? ==>
              SetDelayDelivery(h.now + DelayMillis) in Interception(h)
    ensures h.event.MessageReceived? && Classify(h.event.arg) in {Cancel, Malformed} ==>
              OutcomeOf(Interception(h)) == Block && CloseDialog in Interception(h)
    ensures h.event.MessageReceived? && Classify(h.event.arg) == Other ==>
              OutcomeOf(Interception(h)) == NoCompletion
  {
    OpenDialogTrace(h);
    var pre :| Interception(h) == pre + [DisplayDialog] + EventTrace(h);
    var t, e := Interception(h), EventTrace(h);
    if e != [] {
      assert t[|t| - 1] == e[|e| - 1];
      assert t[|pre| + 1] == e[0];
    } else {
      assert t[|t| - 1] == DisplayDialog;
    }
  }

  /** The send goes ahead exactly when there is no external recipient, the save or
      the dialog failed, or the dialog said "send" and the delay was set. */
  lemma AllowIff(h: HostResponses)
    ensures OutcomeOf(Interception(h)) == Allow <==>
              FieldsPresent(h) &&
              (Externals(h) == [] || h.save.Failed? || h.display.Failed? ||
               (h.event.MessageReceived? && Classify(h.event.arg) == Send && h.delayDelivery == Some(Succeeded)))
  {
    MissingFieldStalls(h);
    if FieldsPresent(h) {
      InterceptionGathers(h);
      if Externals(h) != [] {
        InterceptionShowsDialog(h);
        if h.save.Succeeded? {
          SavedDialogTrace(Externals(h), Contribution(h.attachments), h);
        }
      }
    }
    if ReachesDialog(h) {
      DialogDecision(h);
    }
  }

  /** A missing recipient property stops the hook before any decision. */
  lemma MissingFieldStalls(h: HostResponses)
    ensures !FieldsPresent(h) ==> OutcomeOf(Interception(h)) == NoCompletion
  {
    if !FieldsPresent(h) && h.to.Some? {
      var to := Contribution(h.to.value);
      if h.cc.Some? {
        assert Trace(AskBcc(to + Contribution(h.cc.value)), h) == [];
        assert Interception(h) == [GetTo, GetCc];
      } else {
        assert Interception(h) == [GetTo];
      }
    }
  }

  /** The hook leaves the send hanging exactly when a recipient property is missing,
      or the dialog's message names an action other than "send" and "cancel". */
  lemma NoCompletionIff(h: HostResponses)
    ensures OutcomeOf(Interception(h)) == NoCompletion <==>
              !FieldsPresent(h) ||
              (ReachesDialog(h) && h.event.MessageReceived? && Classify(h.event.arg) == Other)
  {
    MissingFieldStalls(h);
    if FieldsPresent(h) {
      InterceptionGathers(h);
      if Externals(h) != [] {
        InterceptionShowsDialog(h);
        if h.save.Succeeded? {
          SavedDialogTrace(Externals(h), Contribution(h.attachments), h);
        }
      }
    }
    if ReachesDialog(h) {
      DialogDecision(h);
    }
  }

  /** Messages that are not an object with a string `message`, nor a string, parse as
      the empty string and are refused. */
  lemma NoTextIsMalformed(v: HostValue)
    requires !HasMessage(v) && !v.HText?
    ensures Classify(v) == Malformed
  {
  }

  // ---------------------------------------------------------------------------
  // The hook, step by step

  /** The Office host as the hook sees it: the answers it will give, and the calls
      made on it so far. */
  class Host {
    const responses: HostResponses
    var calls: seq<HostCall>

    constructor (responses: HostResponses)
      ensures this.responses == responses && calls == []
    {
      this.responses := responses;
      calls := [];
    }

    method Call(c: HostCall)
      modifies this
      ensures calls == old(calls) + [c]
    {
      calls := calls + [c];
    }
  }

  /** The handlers registered on the open dialog, run on its first event. */
  method HandleDialogEvent(host: Host)
    modifies host
    ensures host.calls == old(host.calls) + EventTrace(host.responses)
  {
    var h := host.responses;
    match h.event {
      case DialogClosed =>
        host.Call(Completed(false));
      case MessageReceived(messageArg) =>
        var messageText := EmptyText;
        if HasMessage(messageArg) {
          messageText := messageArg.message.value.text;
        } else if messageArg.HText? {
          messageText := messageArg.text;
        }
        var parsed := Parse(messageText);
        if parsed.None? || parsed.value.JNull? {
          // the catch block: JSON.parse threw, or `.action` was read on null
          host.Call(CloseDialog);
          host.Call(Completed(false));
          return;
        }
        var action := Property(parsed.value, "action");
        if action == Some(JStr("send")) {
          if h.delayDelivery.None? {
            // `delayDeliveryTime.setAsync` on a missing property throws into the catch block
            host.Call(CloseDialog);
            host.Call(Completed(false));
            return;
          }
          host.Call(SetDelayDelivery(h.now + DelayMillis));
          if h.delayDelivery.value.Failed? {
            host.Call(CloseDialog);
            host.Call(Completed(false));
            return;
          }
          host.Call(CloseDialog);
          host.Call(Completed(true));
        } else if action == Some(JStr("cancel")) {
          host.Call(CloseDialog);
          host.Call(Completed(false));
        }
    }
  }

  /** `showExternalRecipientsDialog`. */
  method ShowExternalRecipientsDialog(externalRecipients: seq<EmailAddressDetails>,
                                      attachments: seq<AttachmentDetails>, host: Host)
    requires forall r :: r in externalRecipients ==> r.emailAddress.Some?
    modifies host
    ensures host.calls == old(host.calls) + Trace(ShowDialog(externalRecipients, attachments), host.responses)
  {
    var h := host.responses;
    host.Call(SaveItem);
    if h.save.Failed? {
      host.Call(Completed(true));
      return;
    }
    var dialogData := BuildDialogData(externalRecipients, attachments);
    if h.sessionStorage {
      host.Call(StorePayload(dialogData));
    }
    host.Call(DisplayDialog);
    if h.display.Failed? {
      host.Call(Completed(true));
      return;
    }
    HandleDialogEvent(host);
  }

  /** `validateExternalRecipients`: asks for the To recipients; the callbacks below ask
      for the next list and push each list that came back onto one growing list. */
  method ValidateExternalRecipients(host: Host)
    modifies host
    ensures host.calls == old(host.calls) + Interception(host.responses)
  {
    var recipients: seq<EmailAddressDetails> := [];
    var to := host.responses.to;
    if to.None? {
      return;
    }
    host.Call(GetTo);
    if to.value.AsyncSucceeded? {
      recipients := recipients + to.value.value.GetOr([]);
    }
    assert recipients == Contribution(to.value);
    OnCcStep(recipients, host);
  }

  /** The To callback's continuation: asks for the Cc recipients. */
  method OnCcStep(recipients: seq<EmailAddressDetails>, host: Host)
    modifies host
    ensures host.calls == old(host.calls) + Trace(AskCc(recipients), host.responses)
  {
    var cc := host.responses.cc;
    if cc.None? {
      return;
    }
    host.Call(GetCc);
    var gathered := recipients;
    if cc.value.AsyncSucceeded? {
      gathered := gathered + cc.value.value.GetOr([]);
    }
    assert gathered == recipients + Contribution(cc.value);
    OnBccStep(gathered, host);
  }

  /** The Cc callback's continuation: asks for the Bcc recipients. */
  method OnBccStep(recipients: seq<EmailAddressDetails>, host: Host)
    modifies host
    ensures host.calls == old(host.calls) + Trace(AskBcc(recipients), host.responses)
  {
    var bcc := host.responses.bcc;
    if bcc.None? {
      return;
    }
    host.Call(GetBcc);
    var gathered := recipients;
    if bcc.value.AsyncSucceeded? {
      gathered := gathered + bcc.value.value.GetOr([]);
    }
    assert gathered == recipients + Contribution(bcc.value);
    FilterAndConfirm(gathered, host);
  }

  /** The Bcc callback's continuation: filter the gathered recipients, allow at once
      when none is external, otherwise ask for the attachments. */
  method FilterAndConfirm(recipients: seq<EmailAddressDetails>, host: Host)
    modifies host
    ensures host.calls == old(host.calls) + Trace(Filter(recipients), host.responses)
  {
    var externalRecipients := ExternalOnly(recipients);
    if |externalRecipients| == 0 {
      host.Call(Completed(true));
      return;
    }
    host.Call(GetAttachments);
    OnAttachments(externalRecipients, host);
  }

  /** The attachment callback: shows the dialog, with no attachment when the fetch
      failed. */
  method OnAttachments(externalRecipients: seq<EmailAddressDetails>, host: Host)
    requires forall r :: r in externalRecipients ==> r.emailAddress.Some?
    modifies host
    ensures host.calls == old(host.calls) + Trace(ShowDialog(externalRecipients, Contribution(host.responses.attachments)), host.responses)
  {
    var attachmentsResult := host.responses.attachments;
    if attachmentsResult.AsyncFailed? {
      ShowExternalRecipientsDialog(externalRecipients, [], host);
      return;
    }
    var attachments := attachmentsResult.value.GetOr([]);
    assert attachments == Contribution(attachmentsResult);
    ShowExternalRecipientsDialog(externalRecipients, attachments, host);
  }
}
