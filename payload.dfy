/** The confirmation payload handed from the send hook to the dialog (`DialogData` in
    src/commands/commands.ts, the props of src/taskpane/components/ConfirmDialog.tsx),
    and its JSON form. */
module Payload {
  import opened Wrappers
  import opened Json

  datatype RecipientInfo = RecipientInfo(displayName: string, emailAddress: string)

  datatype AttachmentInfo = AttachmentInfo(name: string, id: string)

  /** An entry of the dialog together with its check box. */
  datatype Selectable<T> = Selectable(item: T, selected: bool)

  /** `ExternalRecipientData`: {displayName, emailAddress, selected}. */
  type ExternalRecipientData = Selectable<RecipientInfo>

  /** `AttachmentData`: {name, id, selected}. */
  type AttachmentData = Selectable<AttachmentInfo>

  datatype DialogData = DialogData(externalRecipients: seq<ExternalRecipientData>, attachments: seq<AttachmentData>)

  /** The dialog's default payload `{ externalRecipients: [], attachments: [] }`. */
  const EmptyDialogData: DialogData := DialogData([], [])

  function EncodeRecipient(r: ExternalRecipientData): (j: Json)
    ensures j.JObj? && j.fields.Keys == {"displayName", "emailAddress", "selected"}
    ensures j.fields["displayName"] == JStr(r.item.displayName) && j.fields["emailAddress"] == JStr(r.item.emailAddress)
    ensures j.fields["selected"] == JBool(r.selected)
  {
    JObj(map["displayName" := JStr(r.item.displayName),
             "emailAddress" := JStr(r.item.emailAddress),
             "selected" := JBool(r.selected)])
  }

  function DecodeRecipient(j: Json): (r: Option<ExternalRecipientData>)
    ensures forall x :: j == EncodeRecipient(x) ==> r == Some(x)
  {
    if j.JObj? && "displayName" in j.fields && j.fields["displayName"].JStr?
       && "emailAddress" in j.fields && j.fields["emailAddress"].JStr?
       && "selected" in j.fields && j.fields["selected"].JBool?
    then Some(Selectable(RecipientInfo(j.fields["displayName"].s, j.fields["emailAddress"].s),
                         j.fields["selected"].b))
    else None
  }

  function EncodeAttachment(a: AttachmentData): (j: Json)
    ensures j.JObj? && j.fields.Keys == {"name", "id", "selected"}
    ensures j.fields["name"] == JStr(a.item.name) && j.fields["id"] == JStr(a.item.id)
    ensures j.fields["selected"] == JBool(a.selected)
  {
    JObj(map["name" := JStr(a.item.name), "id" := JStr(a.item.id), "selected" := JBool(a.selected)])
  }

  function DecodeAttachment(j: Json): (r: Option<AttachmentData>)
    ensures forall x :: j == EncodeAttachment(x) ==> r == Some(x)
  {
    if j.JObj? && "name" in j.fields && j.fields["name"].JStr?
       && "id" in j.fields && j.fields["id"].JStr?
       && "selected" in j.fields && j.fields["selected"].JBool?
    then Some(Selectable(AttachmentInfo(j.fields["name"].s, j.fields["id"].s), j.fields["selected"].b))
    else None
  }

  /** A JSON array of the encodings of `xs`, in order. */
  function EncodeAll<T>(xs: seq<T>, encode: T -> Json): (items: seq<Json>)
    ensures |items| == |xs|
    ensures forall i :: 0 <= i < |xs| ==> items[i] == encode(xs[i])
  {
    seq(|xs|, i requires 0 <= i < |xs| => encode(xs[i]))
  }

  /** Decodes every item, failing when one of them fails. */
  function DecodeAll<T>(items: seq<Json>, decode: Json -> Option<T>): (r: Option<seq<T>>)
    ensures r.Some? ==> |r.value| == |items|
  {
    if items == [] then Some([])
    else
      match (decode(items[0]), DecodeAll(items[1..], decode))
      case (Some(x), Some(rest)) => Some([x] + rest)
      case _ => None
  }

  function EncodeDialogData(d: DialogData): (j: Json)
    ensures j.JObj? && j.fields.Keys == {"externalRecipients", "attachments"}
    ensures j.fields["externalRecipients"].JArr? && |j.fields["externalRecipients"].items| == |d.externalRecipients|
    ensures j.fields["attachments"].JArr? && |j.fields["attachments"].items| == |d.attachments|
    ensures forall i :: 0 <= i < |d.externalRecipients| ==>
              j.fields["externalRecipients"].items[i] == EncodeRecipient(d.externalRecipients[i])
    ensures forall i :: 0 <= i < |d.attachments| ==> j.fields["attachments"].items[i] == EncodeAttachment(d.attachments[i])
  {
    JObj(map["externalRecipients" := JArr(EncodeAll(d.externalRecipients, EncodeRecipient)),
             "attachments" := JArr(EncodeAll(d.attachments, EncodeAttachment))])
  }

  /** Reads back a parsed payload; `None` when it is not shaped like `DialogData`. */
  function DecodeDialogData(j: Json): (r: Option<DialogData>)
    ensures r.Some? ==> (j.JObj? && "externalRecipients" in j.fields && j.fields["externalRecipients"].JArr?
                         && "attachments" in j.fields && j.fields["attachments"].JArr?)
    ensures r.Some? ==> |r.value.externalRecipients| == |j.fields["externalRecipients"].items|
    ensures r.Some? ==> |r.value.attachments| == |j.fields["attachments"].items|
  {
    if j.JObj? && "externalRecipients" in j.fields && j.fields["externalRecipients"].JArr?
       && "attachments" in j.fields && j.fields["attachments"].JArr?
    then
      match (DecodeAll(j.fields["externalRecipients"].items, DecodeRecipient),
             DecodeAll(j.fields["attachments"].items, DecodeAttachment))
      case (Some(rs), Some(atts)) => Some(DialogData(rs, atts))
      case _ => None
    else None
  }

  /** Decoding the encoding of a list gives the list back, when each element round-trips. */
  lemma {:induction false} DecodeAllEncodeAll<T>(xs: seq<T>, encode: T -> Json, decode: Json -> Option<T>)
    requires forall x :: decode(encode(x)) == Some(x)
    ensures DecodeAll(EncodeAll(xs, encode), decode) == Some(xs)
  {
    if xs != [] {
      var items := EncodeAll(xs, encode);
      assert items[1..] == EncodeAll(xs[1..], encode);
      DecodeAllEncodeAll(xs[1..], encode, decode);
      assert [xs[0]] + xs[1..] == xs;
    }
  }

  /** The payload read back from its JSON form is the payload that was written, field for
      field, empty lists included. */
  lemma DecodeEncodeDialogData(d: DialogData)
    ensures DecodeDialogData(EncodeDialogData(d)) == Some(d)
  {
    DecodeAllEncodeAll(d.externalRecipients, EncodeRecipient, DecodeRecipient);
    DecodeAllEncodeAll(d.attachments, EncodeAttachment, DecodeAttachment);
  }
}
