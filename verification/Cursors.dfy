/** Page cursors: the sort order and the (timestamp, id) key of a page's last message, as text. */
module Cursors {
  import opened Wrappers
  import opened Codecs
  import opened Events

  datatype SortOrder = Asc | Desc

  datatype PageKey = PageKey(timestamp: int, id: ObjectId)

  datatype CursorError = OrderMismatch | Invalid

  function OrderText(o: SortOrder): string {
    if o == Asc then "asc" else "desc"
  }

  function EncodeMessageCursor(c: Codec, m: Message, o: SortOrder): string {
    c.encodeBase64(c.encodeUtf8(c.stringify(
      Obj(map["o" := Str(OrderText(o)), "t" := Str(c.isoDate(m.timestamp)), "id" := Str(m.id)]))))
  }

  datatype EncodedCursor = EncodedCursor(o: SortOrder, t: string, id: string)

  /** The decoded value has the shape of a cursor. Arrays have no such fields, and no value that is
      not an object has. */
  function ReadCursor(value: Json): Option<EncodedCursor> {
    if !value.Obj? then None else
    var o := TextField(value.fields, "o");
    var t := TextField(value.fields, "t");
    var id := TextField(value.fields, "id");
    if t.None? || id.None? then None
    else if o == Some("asc") then Some(EncodedCursor(Asc, t.value, id.value))
    else if o == Some("desc") then Some(EncodedCursor(Desc, t.value, id.value))
    else None
  }

  function ParseCursor(c: Codec, cursor: string): Option<EncodedCursor> {
    match c.parseJson(c.decodeUtf8(c.decodeBase64(cursor)))
    case None => None
    case Some(value) => ReadCursor(value)
  }

  function DecodeMessageCursor(c: Codec, cursor: string, expected: SortOrder): Result<PageKey, CursorError> {
    match ParseCursor(c, cursor)
    case None => Failure(Invalid)
    case Some(decoded) =>
      if decoded.o != expected then Failure(OrderMismatch)
      else if c.parseDate(decoded.t).None? || c.parseId(decoded.id).None? then Failure(Invalid)
      else Success(PageKey(c.parseDate(decoded.t).value, c.parseId(decoded.id).value))
  }

  /** A cursor decodes to the key of its message under the order it was made for, is refused under
      the other, and is never the empty text that means no cursor. */
  lemma CursorRoundTrip(c: Codec, m: Message, id: ObjectId, o: SortOrder, expected: SortOrder)
    requires Lawful(c) && m.id == c.formatId(id)
    ensures DecodeMessageCursor(c, EncodeMessageCursor(c, m, o), expected)
         == if expected == o then Success(PageKey(m.timestamp, id)) else Failure(OrderMismatch)
    ensures EncodeMessageCursor(c, m, o) != ""
  {
    var value := Obj(map["o" := Str(OrderText(o)), "t" := Str(c.isoDate(m.timestamp)), "id" := Str(m.id)]);
    assert c.parseJson(c.decodeUtf8(c.decodeBase64(EncodeMessageCursor(c, m, o)))) == Some(value);
    assert ReadCursor(value) == Some(EncodedCursor(o, c.isoDate(m.timestamp), m.id));
  }

  /** JSON value `j` states the key under order `o`. */
  predicate StatesKey(c: Codec, j: Json, o: SortOrder, key: PageKey) {
    && j.Obj? && TextField(j.fields, "o") == Some(if o == Asc then "asc" else "desc")
    && TextField(j.fields, "t").Some? && c.parseDate(TextField(j.fields, "t").value) == Some(key.timestamp)
    && TextField(j.fields, "id").Some? && c.parseId(TextField(j.fields, "id").value) == Some(key.id)
  }

  /** Any text at all decodes to a key exactly when it is base64url of JSON that states the key under
      the expected order, and is blamed on the order exactly when only the order is wrong. */
  lemma DecodeExact(c: Codec, cursor: string, expected: SortOrder, key: PageKey)
    ensures var j := c.parseJson(c.decodeUtf8(c.decodeBase64(cursor)));
      var r := DecodeMessageCursor(c, cursor, expected);
      && (r == Success(key) <==> j.Some? && StatesKey(c, j.value, expected, key))
      && (r == Failure(OrderMismatch) <==>
            && j.Some? && j.value.Obj?
            && TextField(j.value.fields, "o") == Some(if expected == Asc then "desc" else "asc")
            && TextField(j.value.fields, "t").Some? && TextField(j.value.fields, "id").Some?)
  {
  }
}
