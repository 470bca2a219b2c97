/** JSON values and the text that carries them across the boundary between the
    send hook and the dialog.

    Text is modelled by what `JSON.parse` makes of it: either the serialisation of a
    JSON value, or a string that `JSON.parse` rejects (the empty string among them).
    Spelling, whitespace and escaping of the text are not modelled. */
module Json {
  import opened Wrappers

  datatype Json =
    | JNull
    | JBool(b: bool)
    | JNum(n: int)
    | JStr(s: string)
    | JArr(items: seq<Json>)
    | JObj(fields: map<string, Json>)

  datatype Text =
    | Encoded(value: Json)   // the text `JSON.stringify(value)`
    | Invalid(raw: string)   // a string that `JSON.parse` throws on

  /** The empty string, the default message text of the send hook. */
  const EmptyText: Text := Invalid("")

  /** `JSON.stringify`. */
  function Stringify(v: Json): (t: Text)
    ensures t.Encoded?
  {
    Encoded(v)
  }

  /** `JSON.parse`; `None` stands for the exception it throws. */
  function Parse(t: Text): (r: Option<Json>)
    ensures r.None? <==> t.Invalid?
  {
    match t
    case Encoded(v) => Some(v)
    case Invalid(_) => None
  }

  /** JavaScript truthiness of a string: only the empty string is falsy.
      The serialisation of a JSON value is never empty. */
  function Truthy(t: Text): (b: bool)
    ensures b <==> t != EmptyText
  {
    match t
    case Encoded(_) => true
    case Invalid(raw) => raw != ""
  }

  /** The value of property `key` of a parsed value, `None` when it is undefined. */
  function Property(v: Json, key: string): (r: Option<Json>)
    requires !v.JNull?
    ensures r.Some? ==> v.JObj? && key in v.fields && r.value == v.fields[key]
    ensures v.JObj? && key in v.fields ==> r.Some?
  {
    if v.JObj? && key in v.fields then Some(v.fields[key]) else None
  }

  lemma ParseStringify(v: Json)
    ensures Parse(Stringify(v)) == Some(v)
  {
  }
}
