# OutlookSendSafely: the send-interception handshake, in Dafny

OutlookSendSafely is an Outlook add-in that holds back e-mail leaving the organisation.
Its send hook, `validateExternalRecipients`, gathers the To, Cc and Bcc recipients and
keeps those whose address does not end with `@kairos.com`, ignoring letter case. If there
are none, the send goes ahead. Otherwise the hook does the following:

- fetches the attachments;
- saves the item;
- stores a payload of recipients and attachments, every entry pre-selected, in session storage;
- opens a confirmation dialog.

The dialog page reads the payload back. It renders the recipient list and the attachment
list, each with per-entry check boxes and a "Select All" box. It answers with the message
`{action: 'send'}` or `{action: 'cancel'}`. On "send", the hook sets the item's delayed
delivery to 15 minutes from now and allows the send. On "cancel", on a malformed message
or when the dialog is closed, it blocks the send.

The project is made of these modules:

- `Addresses` (addresses.dfy): the externality test. `toLowerCase` is modelled
  character by character, followed by a suffix test.
- `Json` (json.dfy): JSON values, and the text that carries them. A text is modelled by
  what `JSON.parse` makes of it.
- `Payload` (payload.dfy): the `DialogData` payload and its JSON form, with a proved
  round trip.
- `Interceptor` (interceptor.dfy): the send hook.
  - The Office host is modelled by the answers it gives (`HostResponses`).
  - The hook's behaviour is the sequence of calls it makes on the host. `Trace` states that
    sequence as a stage machine that mirrors the nested callbacks.
  - `OutcomeOf` reads the decision off the last call: `Allow`, `Block`, or `NoCompletion`
    when `event.completed` is never called.
  - The methods at the end take the same steps on a `Host` object, one callback per
    method. Each is proved to make exactly the calls `Trace` prescribes.
- `ConfirmDialog` (confirm_dialog.dfy): the dialog's selection state.
  - Entries are objects (`Entry`). A per-entry toggle mutates the shared entry object in
    place. "Select All" replaces every entry with a fresh copy.
  - The `DialogState` methods are specified by the pure list functions `FlipAt` and
    `SetAll`. The "Select All" state and the send button's rule are `AllSelected` and
    `AnySelected`.
- `DialogPage` (dialog_page.dfy): the dialog page. It loads the stored payload, with its
  fallbacks, and wires the two buttons to their messages. It also holds the end-to-end
  lemmas from a button to the hook's decision.

Where the code and the documented intent differ, the model follows the code:

- A "send" whose delayed-delivery `setAsync` fails **blocks** the send (src/commands/commands.ts:200-204).
- An item without a `delayDeliveryTime` property makes the handler throw. The catch block
  then closes the dialog and **blocks** the send. It does not skip the delay and allow.
- The message handler completes nothing for a parsed message whose `action` is neither
  `"send"` nor `"cancel"`, and it leaves the dialog open. The model takes only the first
  dialog event, so the outcome there is `NoCompletion`. In the program, the user can still
  close the dialog, and the closed-dialog handler then blocks the send.
- An item without a `to`, `cc` or `bcc` property skips that `getAsync` (through `?.`). The
  chain of callbacks stops there, and the send hangs.
- A message that parses to `null` throws when `.action` is read, so it is blocked like a
  malformed message.
- No notification is shown on any path. A failed save or a failed dialog display allows
  the send silently.

## Model

| member | source | states |
|---|---|---|
| Addresses.Lower | src/commands/commands.ts:44 | lower-casing keeps the length and maps each character by `LowerChar` |
| Addresses.LowerChar | src/commands/commands.ts:44 | only ASCII capitals and KELVIN SIGN change; capitals move to their lower-case letter and KELVIN SIGN becomes 'k' |
| Addresses.EndsWith | src/commands/commands.ts:44 | a string that ends with a suffix is some prefix followed by that suffix |
| Addresses.EndsWithConverse | src/commands/commands.ts:44 | a prefix followed by a suffix ends with that suffix, so `EndsWith` is exactly the suffix test |
| Addresses.IsExternalDomain | src/commands/commands.ts:42-45 | an address shorter than "@kairos.com" is external, and one ending in "@kairos.com" is internal |
| Addresses.LowerIdempotent | src/commands/commands.ts:44 | lower-casing twice is lower-casing once |
| Addresses.LowerCharIdempotent | src/commands/commands.ts:44 | lower-casing a character twice is lower-casing it once |
| Addresses.CaseNeverChangesVerdict | src/commands/commands.ts:42-45 | two addresses that differ only in letter case get the same verdict |
| Addresses.LowerKeepsVerdict | src/commands/commands.ts:42-45 | an address and its lower-cased form get the same verdict |
| Addresses.LowerSuffix | src/commands/commands.ts:44 | lower-casing commutes with taking a suffix |
| Addresses.InternalIffCasedSuffix | src/commands/commands.ts:42-45 | an address is internal iff its last 11 characters lower-case to "@kairos.com" |
| Addresses.OrgAddressIsInternal | src/commands/commands.ts:42-45 | "alice@kairos.com" is internal |
| Addresses.UpperCaseOrgAddressIsInternal | src/commands/commands.ts:42-45 | "Alice@KAIROS.COM" is internal |
| Addresses.OtherDomainIsExternal | src/commands/commands.ts:42-45 | "b@external.com" is external |
| Addresses.LongerDomainIsExternal | src/commands/commands.ts:42-45 | "eve@kairos.com.evil.org" is external: the test is a suffix test, not a substring test |
| Addresses.BareDomainIsExternal | src/commands/commands.ts:42-45 | "kairos.com" without the "@" is external |
| Json.Stringify | src/commands/commands.ts:160 | a serialisation is always text that parses |
| Json.Parse | src/commands/commands.ts:191 | parsing fails exactly on text that is not a serialisation |
| Json.Truthy | src/taskpane/confirm-dialog.tsx:17 | a stored text counts as present exactly when it is not the empty string |
| Json.ParseStringify | src/taskpane/confirm-dialog.tsx:18 | parsing a serialisation gives the value back |
| Json.Property | src/commands/commands.ts:193 | a property is defined exactly when the value is an object holding that key, and then it is that field |
| Payload.DecodeRecipient | src/commands/commands.ts:106-110 | decoding the encoding of a recipient entry gives it back |
| Payload.DecodeAttachment | src/commands/commands.ts:112-116 | decoding the encoding of an attachment entry gives it back |
| Payload.EncodeRecipient | src/commands/commands.ts:146-150 | a recipient entry is written as an object with exactly the keys `displayName`, `emailAddress` and `selected`, holding the entry's values |
| Payload.EncodeAttachment | src/commands/commands.ts:151-155 | an attachment entry is written as an object with exactly the keys `name`, `id` and `selected`, holding the entry's values |
| Payload.EncodeDialogData | src/commands/commands.ts:145-160 | the payload is written as an object with exactly the keys `externalRecipients` and `attachments`, two arrays holding each entry's encoding in order |
| Payload.EncodeAll | src/commands/commands.ts:160 | a list encodes to an array of the same length, item by item in order |
| Payload.DecodeAll | src/taskpane/confirm-dialog.tsx:18 | a decoded array has as many items as the array |
| Payload.DecodeAllEncodeAll | src/commands/commands.ts:160 | a list round-trips through its array encoding when each element does |
| Payload.DecodeDialogData | src/taskpane/confirm-dialog.tsx:18 | a payload is read only from an object holding the two arrays, with one entry per array item |
| Payload.DecodeEncodeDialogData | src/taskpane/confirm-dialog.tsx:16-19 | the payload read back from its JSON form is the payload written, both lists included |
| Interceptor.Contribution | src/commands/commands.ts:52-55 | a failed fetch contributes nothing; a successful one contributes its value, or nothing when the value is null |
| Wrappers.Option.GetOr | src/commands/commands.ts:53 | a present value is kept, and a missing one is replaced by the default, as the fallback to `[]` does when the value is null |
| Interceptor.Gathered | src/commands/commands.ts:48-69 | the gathered list starts with the To recipients, holds exactly the recipients of the three fetches, and is as long as the three together |
| Interceptor.CheckedExternal | src/commands/commands.ts:72-79 | a recipient without a readable address counts as internal; one with a readable address counts as external exactly when the address is external |
| Interceptor.ExternalOnly | src/commands/commands.ts:72-79 | the filter never lengthens the list and keeps only recipients with a readable address |
| Interceptor.ExternalOnlyKeepsExactlyExternals | src/commands/commands.ts:72-79 | the external list is an order-preserving subsequence of the gathered list holding exactly the recipients checked external, each as many times as it was gathered (a recipient in both To and Cc appears twice); one whose check throws is left out |
| Interceptor.NoExternalIff | src/commands/commands.ts:72-85 | the external list is empty iff no gathered recipient is checked external |
| Interceptor.ExternalOnlyConcat | src/commands/commands.ts:72-79 | filtering a concatenation filters each part |
| Interceptor.ExternalsInFieldOrder | src/commands/commands.ts:48-79 | the externals come in To, Cc, Bcc order; a failed To fetch adds none |
| Interceptor.BuildDialogData | src/commands/commands.ts:145-156 | the payload has the lengths and order of its inputs, copies names, addresses and ids, and selects every entry |
| Interceptor.HasMessage | src/commands/commands.ts:124-126 | a bare string, null or any other non-object has no message; an object that has one carries a string `message` |
| Interceptor.MessageText | src/commands/commands.ts:181-188 | the text is the string `message` of an object that has one, else the argument itself when it is a string, else the empty text |
| Interceptor.ActionOf | src/commands/commands.ts:191-214 | malformed iff parsing threw or gave null; send iff the value is an object whose `action` is the string "send"; cancel likewise for "cancel" |
| Interceptor.Classify | src/commands/commands.ts:178-214 | an argument with no message text is malformed; send and cancel come only from text that parses to an object |
| Interceptor.EventTrace | src/commands/commands.ts:178-226 | the handlers make no call exactly for an action other than send and cancel; otherwise they end with one `event.completed`, which allows only after the delay was set |
| Interceptor.Trace | src/commands/commands.ts:38-230 | from every stage on, `event.completed` is called at most once, and nothing is called after it |
| Interceptor.Interception | src/commands/commands.ts:38-51 | the hook makes no call iff the item has no `to` property, otherwise it starts by fetching To; `event.completed` is called at most once, as the last call |
| Interceptor.OutcomeOf | src/commands/commands.ts:38-230 | the send is allowed or blocked only by a matching `event.completed` call, and hangs when there is none |
| Interceptor.Externals | src/commands/commands.ts:72-79 | every external recipient of a send attempt has a readable address |
| Interceptor.InterceptionGathers | src/commands/commands.ts:48-69 | with all three recipient properties present, the hook fetches To, Cc and Bcc in that order and filters their concatenation |
| Interceptor.InterceptionShowsDialog | src/commands/commands.ts:82-98 | with an external recipient, the hook fetches the attachments and hands them to the dialog step |
| Interceptor.SavedDialogTrace | src/commands/commands.ts:137-172 | after a successful save: payload stored when storage exists, dialog displayed, then allow on display failure or the handlers' calls |
| Interceptor.NoExternalAllowsWithoutDialog | src/commands/commands.ts:82-85 | when no gathered recipient has a readable external address, the send is allowed and neither the attachment fetch, the save nor the dialog happens |
| Interceptor.ExternalLeadsToDialog | src/commands/commands.ts:82-98 | a gathered recipient with a readable external address leads to the attachment fetch and the save, and after a successful save to the dialog |
| Interceptor.ExternalsLeadToDialog | src/commands/commands.ts:82-98 | a non-empty external list leads to the attachment fetch and the save, and after a successful save to the dialog |
| Interceptor.ExternalKept | src/commands/commands.ts:72-79 | a gathered recipient whose check says external is on the external list |
| Interceptor.AttachmentFailureStillShowsDialog | src/commands/commands.ts:89-93 | a failed attachment fetch still shows the dialog; when storage exists the stored payload has an empty attachment list |
| Interceptor.SaveFailureFailsOpen | src/commands/commands.ts:138-142 | a failed save allows the send and never displays the dialog |
| Interceptor.DisplayFailureFailsOpen | src/commands/commands.ts:168-172 | a dialog that fails to display allows the send |
| Interceptor.OpenDialogTrace | src/commands/commands.ts:164-226 | once the dialog is open, the trace ends with its display followed by the handlers' calls |
| Interceptor.DialogDecision | src/commands/commands.ts:178-226 | send gives allow iff the delay was set, else block (with the delay requested when the property exists); cancel and malformed messages close the dialog and block; closing blocks; any other action completes nothing |
| Interceptor.AllowIff | src/commands/commands.ts:38-230 | the send is allowed iff all recipient properties exist and there is no external, or the save or display failed, or the dialog said send and the delay was set |
| Interceptor.MissingFieldStalls | src/commands/commands.ts:51-65 | a missing To, Cc or Bcc property leaves the send without a decision |
| Interceptor.NoCompletionIff | src/commands/commands.ts:38-230 | over the first dialog event, no decision is made iff a recipient property is missing or the open dialog names an action other than send and cancel |
| Interceptor.NoTextIsMalformed | src/commands/commands.ts:181-191 | an argument with no message text parses the empty string, which throws, so it is refused |
| Interceptor.HandleDialogEvent | src/commands/commands.ts:178-226 | the handlers make exactly the calls of `EventTrace` |
| Interceptor.ShowExternalRecipientsDialog | src/commands/commands.ts:131-230 | makes exactly the calls of the dialog stage |
| Interceptor.ValidateExternalRecipients | src/commands/commands.ts:38-56 | makes exactly the calls of `Interception` |
| Interceptor.OnCcStep | src/commands/commands.ts:58-63 | the Cc callback makes exactly the calls of its stage, with the recipients gathered so far |
| Interceptor.OnBccStep | src/commands/commands.ts:65-70 | the Bcc callback makes exactly the calls of its stage |
| Interceptor.FilterAndConfirm | src/commands/commands.ts:72-88 | the filter step makes exactly the calls of its stage |
| Interceptor.OnAttachments | src/commands/commands.ts:88-99 | the attachment callback makes exactly the calls of the dialog stage, with no attachments after a failure |
| Interceptor.Host.Call | src/commands/commands.ts:137 | a host call is appended to the calls made so far |
| ConfirmDialog.FlipAt | src/taskpane/components/ConfirmDialog.tsx:142-146 | a toggle flips `selected` of entry i only, keeping its item, the length and every other entry |
| ConfirmDialog.SetAll | src/taskpane/components/ConfirmDialog.tsx:155-162 | "Select All" keeps the length and every item in order |
| ConfirmDialog.Items | src/taskpane/components/ConfirmDialog.tsx:217-256 | the items of a list, same length and order |
| ConfirmDialog.AllSelected | src/taskpane/components/ConfirmDialog.tsx:212 | a "Select All" box over an empty list shows checked |
| ConfirmDialog.AnySelected | src/taskpane/components/ConfirmDialog.tsx:175 | an empty list has no selected entry |
| ConfirmDialog.FlipTwice | src/taskpane/components/ConfirmDialog.tsx:142-152 | toggling the same entry twice restores the list |
| ConfirmDialog.FlipKeepsItems | src/taskpane/components/ConfirmDialog.tsx:142-152 | a toggle adds, removes and reorders nothing |
| ConfirmDialog.SetAllKeepsItems | src/taskpane/components/ConfirmDialog.tsx:155-172 | "Select All" keeps every entry and its order |
| ConfirmDialog.SetAllSelection | src/taskpane/components/ConfirmDialog.tsx:155-175 | after checking "Select All" its box shows checked; after unchecking nothing is selected; something is selected iff it was checked on a non-empty list |
| ConfirmDialog.SetAllTwice | src/taskpane/components/ConfirmDialog.tsx:155-172 | of two "Select All" settings the second wins |
| ConfirmDialog.AllAndAnySelected | src/taskpane/components/ConfirmDialog.tsx:212 | an all-selected non-empty list has a selected entry; the empty list shows "Select All" checked yet has nothing selected |
| ConfirmDialog.FlipSelection | src/taskpane/components/ConfirmDialog.tsx:142-146 | checking an entry selects something; unchecking the only selected entry leaves nothing selected |
| ConfirmDialog.PrimaryLine | src/taskpane/components/ConfirmDialog.tsx:224 | the first line is the display name or the address |
| ConfirmDialog.SecondaryLine | src/taskpane/components/ConfirmDialog.tsx:225-227 | the second line, when shown, is the address |
| ConfirmDialog.AddressAlwaysShown | src/taskpane/components/ConfirmDialog.tsx:224-227 | every address appears on the first or the second line, and the first line is empty only when name and address both are |
| ConfirmDialog.View | src/taskpane/components/ConfirmDialog.tsx:217-256 | what a list of entry objects shows, entry by entry |
| ConfirmDialog.NewEntries | src/taskpane/confirm-dialog.tsx:31-33 | fresh, distinct entry objects showing exactly the given values |
| ConfirmDialog.CopyAllSelected | src/taskpane/components/ConfirmDialog.tsx:156-160 | fresh, distinct copies showing `SetAll` of the old entries |
| ConfirmDialog.DialogState.constructor | src/taskpane/components/ConfirmDialog.tsx:138-139 | the state starts out holding the very lists it was given |
| ConfirmDialog.DialogState.HasSelectedRecipients | src/taskpane/components/ConfirmDialog.tsx:175 | true iff some recipient entry object is selected |
| ConfirmDialog.DialogState.SendDisabled | src/taskpane/components/ConfirmDialog.tsx:266-269 | the button is disabled iff no recipient entry is selected, in particular when there is no recipient |
| ConfirmDialog.DialogState.AllRecipientsChecked | src/taskpane/components/ConfirmDialog.tsx:212 | the recipients' "Select All" box is checked iff every recipient entry is selected |
| ConfirmDialog.DialogState.AllAttachmentsChecked | src/taskpane/components/ConfirmDialog.tsx:243 | the attachments' "Select All" box is checked iff every attachment entry is selected |
| ConfirmDialog.DialogState.ShowsAttachments | src/taskpane/components/ConfirmDialog.tsx:234 | the attachment section is rendered iff the attachment list is non-empty |
| ConfirmDialog.DialogState.ToggleRecipient | src/taskpane/components/ConfirmDialog.tsx:142-146 | the recipients become `FlipAt` of the old ones, by an in-place change of one entry; attachments unchanged |
| ConfirmDialog.DialogState.ToggleAttachment | src/taskpane/components/ConfirmDialog.tsx:148-152 | the attachments become `FlipAt` of the old ones; recipients unchanged |
| ConfirmDialog.DialogState.ToggleAllRecipients | src/taskpane/components/ConfirmDialog.tsx:155-162 | the recipients become `SetAll` of the old ones; checking shows "Select All" checked; the send button is disabled iff unchecked or empty |
| ConfirmDialog.DialogState.ToggleAllAttachments | src/taskpane/components/ConfirmDialog.tsx:165-172 | the attachments become `SetAll` of the old ones; checking shows "Select All" checked |
| DialogPage.LoadDialogData | src/taskpane/confirm-dialog.tsx:13-22 | no item or a storage error gives the empty default; unparseable text keeps the default; a parsed payload is taken as is; a stored serialisation gives back exactly its payload |
| DialogPage.RenderDialog | src/taskpane/confirm-dialog.tsx:29-36 | the dialog's state shows exactly the loaded recipients and attachments |
| DialogPage.Delivered | src/taskpane/confirm-dialog.tsx:26 | a text sent to the parent reaches the hook as a string `message` with that text |
| DialogPage.Parent.MessageParent | src/taskpane/confirm-dialog.tsx:26 | one message is appended to those sent |
| DialogPage.SendMessageToParent | src/taskpane/confirm-dialog.tsx:25-27 | one message is sent: the serialisation of the argument |
| DialogPage.OnSend | src/taskpane/confirm-dialog.tsx:34 | exactly one message, `{action: 'send'}` |
| DialogPage.OnCancel | src/taskpane/confirm-dialog.tsx:35 | exactly one message, `{action: 'cancel'}` |
| DialogPage.ClickScheduleSend | src/taskpane/components/ConfirmDialog.tsx:266-269 | a click on the disabled button sends nothing; on the enabled button it sends exactly `{action: 'send'}` |
| DialogPage.ClickCancel | src/taskpane/components/ConfirmDialog.tsx:263-265 | a click on "Cancel" sends exactly `{action: 'cancel'}` |
| DialogPage.ButtonMessagesClassified | src/taskpane/confirm-dialog.tsx:34-35 | the hook reads the send button's message as send and the cancel button's as cancel |
| DialogPage.ButtonDecides | src/taskpane/confirm-dialog.tsx:34-35 | with the dialog open, the send button allows the send iff the delay was set, and the cancel button blocks it |
| DialogPage.StoredPayloadOpensEnabled | src/commands/commands.ts:145-161 | the stored payload is in the trace, loads back unchanged, and opens with everything selected and the send button enabled |

## Left out

- JSON text is not modelled character by character. A text is either the serialisation of a value or a string that `JSON.parse` rejects. Whitespace, escaping and number formats are out of scope.
- `toLowerCase` is modelled for ASCII capitals and KELVIN SIGN only. Among single-character results, these are the only characters that lower-case onto a character of "@kairos.com". LATIN CAPITAL LETTER I WITH DOT ABOVE (U+0130) lower-cases to "i" followed by COMBINING DOT ABOVE (U+0307). That dot is not in the suffix and always follows the "i", so the suffix can never match across it. The verdict of `isExternalDomain` is therefore unaffected. Other Unicode case mappings, including length-changing ones, are not modelled.
- Dates: the current time is an input (`now`, in milliseconds), and the delay is `now + 15 minutes`. Clock, time zone and `setMinutes` overflow rules are left out.
- The Office APIs (`getAsync`, `getAttachmentsAsync`, `saveAsync`, `displayDialogAsync`, `messageParent`, `dialog.close`, `delayDeliveryTime.setAsync`) are foreign calls. Only their statuses and values are modelled, as inputs.
- Error messages and `console.error` logging are not modelled.
- Interceptor.NoCompletionIff: only the first dialog event is modelled. After a message with another action, the dialog stays open, and a later closing of the dialog would block the send. The model reports `NoCompletion` for that first event.
- Only one send attempt is modelled, and only one dialog event after the dialog opens. The host can deliver a dialog-closed event after a message, which would call `event.completed` a second time. That interleaving is host scheduling and is not modelled.
- `sessionStorage.setItem` throwing, for example on a full quota, is not modelled. The `typeof window` and `window.sessionStorage` test is one input flag.
- The dialog URL and size options are not modelled.
- The `action` command and its notification (src/commands/commands.ts:16-32) are host plumbing and are left out. So is the `Office.actions.associate` registration.
- The Fluent UI rendering is left out: styles, icons, badges and layout. Of the markup, only the text lines of a recipient entry, the attachment section's visibility and the check-box and button states are modelled.
- Interceptor.ValidateExternalRecipients: the case where `Office.context.mailbox.item` itself is missing is not modelled.
- DialogPage.LoadDialogData: a stored text that parses to a value not shaped like the payload keeps the empty default. The source passes such a value on as is, and a later read may then throw. The model does not capture that.
- DialogPage.RenderDialog: the page renders nothing when the `container` element is missing (`root?.render`). This is not modelled. Rendering is taken to happen once, with the loaded data.
- ConfirmDialog.DialogState.ToggleAllRecipients: the value passed for `checked` comes from the Fluent check box's `onChange` data. It is a parameter, and the check box's own rule for computing it is not modelled.
- ConfirmDialog.DialogState.ToggleRecipient: React's re-render after `setRecipients` is not modelled. The toggle's index is required to be in range, because the component only passes indices of rendered entries.
