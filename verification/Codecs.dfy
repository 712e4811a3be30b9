/** JSON values, and the library codecs the program calls: ISO dates, JSON text, UTF-8,
    base64url and hexadecimal object ids. They are not re-implemented: a `Codec` bundles
    them as functions, and `Lawful` states the inverse laws the program relies on. */
module Codecs {
  import opened Wrappers

  newtype Byte = b: int | 0 <= b < 256
  type Bytes = seq<Byte>

  /** A 96-bit database identifier; only its order and its distinctness matter. */
  type ObjectId = nat

  /** A JSON number: the integer below it, and the decimals of the rest, none if it is whole. */
  datatype Number = Number(floor: int, decimals: string)

  function Whole(n: int): Number {
    Number(n, "")
  }

  datatype Json =
    | Null
    | Bool(truth: bool)
    | Num(number: Number)
    | Str(text: string)
    | Arr(items: seq<Json>)
    | Obj(fields: map<string, Json>)

  type JsonObject = map<string, Json>

  datatype Codec = Codec(
    isoDate: int -> string,
    parseDate: string -> Option<int>,
    stringify: Json -> string,
    parseJson: string -> Option<Json>,
    encodeUtf8: string -> Bytes,
    decodeUtf8: Bytes -> string,
    encodeBase64: Bytes -> string,
    decodeBase64: string -> Bytes,
    formatId: ObjectId -> string,
    parseId: string -> Option<ObjectId>,
    acceptId: string -> Option<ObjectId>)

  /** Each decoder undoes its encoder. UTF-8 decoding is total and may be lossy, so only one
      direction holds. `parseId` reads 24 hexadecimal digits; `acceptId` is the library's own reading of
      an id, which may accept more. Empty text decodes to nothing: it is not a JSON document. Dates, ids and JSON
      values are countably many, so texts to tell them apart exist. */
  ghost predicate Lawful(c: Codec) {
    && (forall t :: c.parseDate(c.isoDate(t)) == Some(t))
    && (forall j :: c.parseJson(c.stringify(j)) == Some(j))
    && (forall s :: c.decodeUtf8(c.encodeUtf8(s)) == s)
    && (forall b :: c.decodeBase64(c.encodeBase64(b)) == b)
    && (forall i: ObjectId :: c.parseId(c.formatId(i)) == Some(i))
    && (forall s :: c.parseId(s).Some? ==> c.acceptId(s) == c.parseId(s))
    && c.parseJson(c.decodeUtf8(c.decodeBase64(""))) == None
  }

  predicate HasField(o: JsonObject, name: string, value: Json) {
    name in o && o[name] == value
  }

  /** The text held by field `name`, if there is such a field and it is a string. */
  function TextField(o: JsonObject, name: string): Option<string> {
    if name in o && o[name].Str? then Some(o[name].text) else None
  }
}
