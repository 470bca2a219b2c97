/** The confirmation dialog (src/taskpane/components/ConfirmDialog.tsx): the list of
    external recipients and the list of attachments, each entry with a check box, a
    "Select All" box over each list, and a "Schedule Send" button that stays disabled
    while no recipient is selected.

    The entries are objects: toggling one entry flips its `selected` field in place
    (the copied array still holds the same objects), while "Select All" replaces every
    entry with a fresh copy. The pure functions at the top say what a list of entries
    looks like; the `DialogState` class at the bottom takes the component's steps on
    objects and is specified by those functions. */
module ConfirmDialog {
  import opened Wrappers
  import opened Payload

  // ---------------------------------------------------------------------------
  // Lists of entries with check boxes, as values

  /** `every(x => x.selected)`: the state of a "Select All" box. True on the empty list. */
  function AllSelected<T>(xs: seq<Selectable<T>>): (b: bool)
    ensures xs == [] ==> b
  {
    forall i :: 0 <= i < |xs| ==> xs[i].selected
  }

  /** `some(x => x.selected)`. False on the empty list. */
  function AnySelected<T>(xs: seq<Selectable<T>>): (b: bool)
    ensures b ==> xs != []
  {
    exists i :: 0 <= i < |xs| && xs[i].selected
  }

  /** The list after the user clicked the check box of entry `i`. */
  function FlipAt<T>(xs: seq<Selectable<T>>, i: nat): (ys: seq<Selectable<T>>)
    requires i < |xs|
    ensures |ys| == |xs|
    ensures ys[i].item == xs[i].item && ys[i].selected == !xs[i].selected
    ensures forall j :: 0 <= j < |xs| && j != i ==> ys[j] == xs[j]
  {
    xs[i := Selectable(xs[i].item, !xs[i].selected)]
  }

  /** The list after "Select All" was set to `checked`: every entry kept, in order,
      with its check box set to `checked`. */
  function SetAll<T>(xs: seq<Selectable<T>>, checked: bool): (ys: seq<Selectable<T>>)
    ensures |ys| == |xs|
    ensures forall i :: 0 <= i < |xs| ==> ys[i].item == xs[i].item
  {
    seq(|xs|, i requires 0 <= i < |xs| => Selectable(xs[i].item, checked))
  }

  /** The items of a list, without their check boxes. */
  function Items<T>(xs: seq<Selectable<T>>): (items: seq<T>)
    ensures |items| == |xs|
    ensures forall i :: 0 <= i < |xs| ==> items[i] == xs[i].item
  {
    seq(|xs|, i requires 0 <= i < |xs| => xs[i].item)
  }

  /** Clicking the same check box twice gives the list back. */
  lemma FlipTwice<T>(xs: seq<Selectable<T>>, i: nat)
    requires i < |xs|
    ensures FlipAt(FlipAt(xs, i), i) == xs
  {
    var ys := FlipAt(FlipAt(xs, i), i);
    assert forall j :: 0 <= j < |xs| ==> ys[j] == xs[j];
  }

  /** A check box only changes whether its own entry is selected: no entry is added,
      removed or reordered. */
  lemma FlipKeepsItems<T>(xs: seq<Selectable<T>>, i: nat)
    requires i < |xs|
    ensures Items(FlipAt(xs, i)) == Items(xs)
  {
  }

  /** "Select All" keeps the entries and their order. */
  lemma SetAllKeepsItems<T>(xs: seq<Selectable<T>>, checked: bool)
    ensures Items(SetAll(xs, checked)) == Items(xs)
  {
  }

  /** After "Select All" is checked, the box shows checked; after it is unchecked, no
      entry is selected. */
  lemma SetAllSelection<T>(xs: seq<Selectable<T>>, checked: bool)
    ensures checked ==> AllSelected(SetAll(xs, checked))
    ensures !checked ==> !AnySelected(SetAll(xs, checked))
    ensures AnySelected(SetAll(xs, checked)) <==> checked && xs != []
  {
    var ys := SetAll(xs, checked);
    if checked && xs != [] {
      assert ys[0].selected;
    }
  }

  /** Setting "Select All" twice: the second setting wins. */
  lemma SetAllTwice<T>(xs: seq<Selectable<T>>, first: bool, second: bool)
    ensures SetAll(SetAll(xs, first), second) == SetAll(xs, second)
  {
  }

  /** A non-empty list whose entries are all selected has a selected entry; the empty
      list has none, although its "Select All" box shows checked. */
  lemma AllAndAnySelected<T>(xs: seq<Selectable<T>>)
    ensures AllSelected(xs) && xs != [] ==> AnySelected(xs)
    ensures xs == [] ==> AllSelected(xs) && !AnySelected(xs)
  {
    if AllSelected(xs) && xs != [] {
      assert xs[0].selected;
    }
  }

  /** Unchecking the only selected entry leaves nothing selected; checking an entry
      makes something selected. */
  lemma FlipSelection<T>(xs: seq<Selectable<T>>, i: nat)
    requires i < |xs|
    ensures !xs[i].selected ==> AnySelected(FlipAt(xs, i))
    ensures xs[i].selected && (forall j :: 0 <= j < |xs| && j != i ==> !xs[j].selected) ==>
              !AnySelected(FlipAt(xs, i))
  {
    var ys := FlipAt(xs, i);
    if !xs[i].selected {
      assert ys[i].selected;
    }
  }

  /** The first line shown for a recipient: the display name, or the address when the
      name is empty. */
  function PrimaryLine(r: RecipientInfo): (line: string)
    ensures line == r.displayName || line == r.emailAddress
  {
    if r.displayName != "" then r.displayName else r.emailAddress
  }

  /** The second, smaller line: the address, shown only under a non-empty name. */
  function SecondaryLine(r: RecipientInfo): (line: Option<string>)
    ensures line.Some? ==> line.value == r.emailAddress
  {
    if r.displayName != "" then Some(r.emailAddress) else None
  }

  /** Every recipient's address is on screen, on the first line or on the second, and
      the first line is empty only when both name and address are. */
  lemma AddressAlwaysShown(r: RecipientInfo)
    ensures PrimaryLine(r) == r.emailAddress || SecondaryLine(r) == Some(r.emailAddress)
    ensures PrimaryLine(r) == "" <==> r.displayName == "" && r.emailAddress == ""
    ensures SecondaryLine(r).Some? <==> PrimaryLine(r) == r.displayName && r.displayName != ""
  {
  }

  // ---------------------------------------------------------------------------
  // The component's state, as objects

  /** An entry of one of the dialog's lists (`ExternalRecipient` or `Attachment`): what
      it describes, and its check box. */
  class Entry<T> {
    const item: T
    var selected: bool

    constructor (item: T, selected: bool)
      ensures this.item == item && this.selected == selected
    {
      this.item := item;
      this.selected := selected;
    }
  }

  /** What a list of entries shows. */
  function View<T>(entries: seq<Entry<T>>): (xs: seq<Selectable<T>>)
    reads entries
    ensures |xs| == |entries|
    ensures forall i :: 0 <= i < |entries| ==> xs[i] == Selectable(entries[i].item, entries[i].selected)
  {
    seq(|entries|, i reads entries requires 0 <= i < |entries| => Selectable(entries[i].item, entries[i].selected))
  }

  /** No entry object appears twice in a list, so each check box is its own. */
  predicate Distinct<T>(entries: seq<Entry<T>>) {
    forall i, j :: 0 <= i < j < |entries| ==> entries[i] != entries[j]
  }

  /** The entries, as fresh objects, that the dialog shows for the values `xs`. */
  method NewEntries<T>(xs: seq<Selectable<T>>) returns (entries: seq<Entry<T>>)
    ensures Distinct(entries) && View(entries) == xs
    ensures forall e :: e in entries ==> fresh(e)
  {
    entries := [];
    var i := 0;
    while i < |xs|
      invariant 0 <= i <= |xs| && |entries| == i
      invariant Distinct(entries)
      invariant forall e :: e in entries ==> fresh(e)
      invariant forall k :: 0 <= k < i ==> entries[k].item == xs[k].item && entries[k].selected == xs[k].selected
    {
      var e := new Entry(xs[i].item, xs[i].selected);
      entries := entries + [e];
      i := i + 1;
    }
  }

  /** `SetAll` on objects: a fresh copy of every entry, with `selected` set to `checked`.
      The old entries are left as they were. */
  method CopyAllSelected<T>(entries: seq<Entry<T>>, checked: bool) returns (copies: seq<Entry<T>>)
    ensures Distinct(copies) && View(copies) == SetAll(View(entries), checked)
    ensures forall e :: e in copies ==> fresh(e)
  {
    copies := [];
    var i := 0;
    while i < |entries|
      invariant 0 <= i <= |entries| && |copies| == i
      invariant Distinct(copies)
      invariant forall e :: e in copies ==> fresh(e)
      invariant forall k :: 0 <= k < i ==> copies[k].item == entries[k].item && copies[k].selected == checked
    {
      var e := new Entry(entries[i].item, checked);
      copies := copies + [e];
      i := i + 1;
    }
  }

  /** The state of one rendered `ConfirmDialog`. */
  class DialogState {
    var recipients: seq<Entry<RecipientInfo>>
    var attachmentList: seq<Entry<AttachmentInfo>>

    predicate Valid()
      reads this
    {
      Distinct(recipients) && Distinct(attachmentList)
    }

    function Recipients(): seq<ExternalRecipientData>
      reads this, recipients
    {
      View(recipients)
    }

    function Attachments(): seq<AttachmentData>
      reads this, attachmentList
    {
      View(attachmentList)
    }

    /** The state starts out holding the very arrays it was given as props. */
    constructor (externalRecipients: seq<Entry<RecipientInfo>>, attachments: seq<Entry<AttachmentInfo>>)
      requires Distinct(externalRecipients) && Distinct(attachments)
      ensures Valid()
      ensures recipients == externalRecipients && attachmentList == attachments
    {
      recipients := externalRecipients;
      attachmentList := attachments;
    }

    /** `hasSelectedRecipients`: some recipient is selected. */
    function HasSelectedRecipients(): (b: bool)
      reads this, recipients
      ensures b <==> exists i :: 0 <= i < |recipients| && recipients[i].selected
    {
      AnySelected(Recipients())
    }

    /** The "Schedule Send" button is disabled. */
    function SendDisabled(): (b: bool)
      reads this, recipients
      ensures b <==> forall i :: 0 <= i < |recipients| ==> !recipients[i].selected
      ensures recipients == [] ==> b
    {
      !HasSelectedRecipients()
    }

    /** The recipients' "Select All" box shows checked. */
    function AllRecipientsChecked(): (b: bool)
      reads this, recipients
      ensures b <==> forall i :: 0 <= i < |recipients| ==> recipients[i].selected
    {
      AllSelected(Recipients())
    }

    /** The attachments' "Select All" box shows checked. */
    function AllAttachmentsChecked(): (b: bool)
      reads this, attachmentList
      ensures b <==> forall i :: 0 <= i < |attachmentList| ==> attachmentList[i].selected
    {
      AllSelected(Attachments())
    }

    /** The attachment section is rendered at all. */
    function ShowsAttachments(): (b: bool)
      reads this, attachmentList
      ensures b <==> Attachments() != []
    {
      |attachmentList| > 0
    }

    /** `toggleRecipient(index)`: flips the check box of one recipient, in place. */
    method ToggleRecipient(index: nat)
      requires Valid() && index < |recipients|
      modifies recipients[index]
      ensures Valid()
      ensures Recipients() == FlipAt(old(Recipients()), index)
      ensures Attachments() == old(Attachments())
    {
      var entry := recipients[index];
      entry.selected := !entry.selected;
    }

    /** `toggleAttachment(index)`: flips the check box of one attachment, in place. */
    method ToggleAttachment(index: nat)
      requires Valid() && index < |attachmentList|
      modifies attachmentList[index]
      ensures Valid()
      ensures Attachments() == FlipAt(old(Attachments()), index)
      ensures Recipients() == old(Recipients())
    {
      var entry := attachmentList[index];
      entry.selected := !entry.selected;
    }

    /** `toggleAllRecipients(checked)`: replaces the recipients with copies whose
        `selected` is `checked`. */
    method ToggleAllRecipients(checked: bool)
      requires Valid()
      modifies this
      ensures Valid()
      ensures Recipients() == SetAll(old(Recipients()), checked)
      ensures attachmentList == old(attachmentList) && Attachments() == old(Attachments())
      ensures checked ==> AllRecipientsChecked()
      ensures SendDisabled() <==> !checked || recipients == []
    {
      recipients := CopyAllSelected(recipients, checked);
      SetAllSelection(old(Recipients()), checked);
    }

    /** `toggleAllAttachments(checked)`: replaces the attachments with copies whose
        `selected` is `checked`. */
    method ToggleAllAttachments(checked: bool)
      requires Valid()
      modifies this
      ensures Valid()
      ensures Attachments() == SetAll(old(Attachments()), checked)
      ensures recipients == old(recipients) && Recipients() == old(Recipients())
      ensures checked ==> AllAttachmentsChecked()
    {
      attachmentList := CopyAllSelected(attachmentList, checked);
      SetAllSelection(old(Attachments()), checked);
    }
  }
}
