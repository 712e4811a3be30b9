/** Messages, the message-created event that carries one over Kafka, the search document
    made from it, and the round trip between them. */
module Events {
  import opened Wrappers
  import opened Codecs

  const MESSAGE_CREATED_EVENT_TYPE := "message.created"
  const MESSAGE_CREATED_EVENT_VERSION := Whole(1)

  datatype Message = Message(
    id: string, conversationId: string, senderId: string, content: string,
    timestamp: int, metadata: Option<JsonObject>)

  datatype Payload = Payload(
    id: string, conversationId: string, senderId: string, content: string,
    timestamp: string, metadata: Option<JsonObject>)

  /** The envelope; its type and version fields are the two constants above. */
  datatype MessageCreatedEvent = MessageCreatedEvent(
    eventId: string, occurredAt: string, correlationId: string, payload: Payload)

  function ToPayload(c: Codec, m: Message): Payload {
    Payload(m.id, m.conversationId, m.senderId, m.content, c.isoDate(m.timestamp), m.metadata)
  }

  function BuildEvent(c: Codec, m: Message, eventId: string, correlationId: string, occurredAt: int)
    : MessageCreatedEvent
  {
    MessageCreatedEvent(eventId, c.isoDate(occurredAt), correlationId, ToPayload(c, m))
  }

  // ---- The event as JSON, and as the bytes of a Kafka value ----

  function PayloadFields(p: Payload): JsonObject {
    map["id" := Str(p.id), "conversationId" := Str(p.conversationId), "senderId" := Str(p.senderId),
        "content" := Str(p.content), "timestamp" := Str(p.timestamp)]
    + (if p.metadata.None? then map[] else map["metadata" := Obj(p.metadata.value)])
  }

  function EnvelopeFields(e: MessageCreatedEvent): JsonObject {
    map["eventId" := Str(e.eventId), "eventType" := Str(MESSAGE_CREATED_EVENT_TYPE),
        "eventVersion" := Num(MESSAGE_CREATED_EVENT_VERSION), "occurredAt" := Str(e.occurredAt),
        "correlationId" := Str(e.correlationId), "payload" := Obj(PayloadFields(e.payload))]
  }

  function WireValue(c: Codec, e: MessageCreatedEvent): Bytes {
    c.encodeUtf8(c.stringify(Obj(EnvelopeFields(e))))
  }

  // ---- Parsing, as the search indexer does it ----

  datatype ParsedEvent =
    | Created(event: MessageCreatedEvent)
    | UnknownVersion(eventType: string, eventVersion: Number)
    | Malformed(reason: string)

  function ParsePayload(c: Codec, o: JsonObject): Result<Payload, string> {
    var id := TextField(o, "id");
    var conversationId := TextField(o, "conversationId");
    var senderId := TextField(o, "senderId");
    var content := TextField(o, "content");
    var timestamp := TextField(o, "timestamp");
    if id.None? || conversationId.None? || senderId.None? || content.None? || timestamp.None?
       || c.parseDate(timestamp.value).None? then
      Failure("Event payload is invalid")
    else if "metadata" in o && !o["metadata"].Obj? then
      Failure("Event payload metadata must be an object")
    else
      var metadata := if "metadata" in o then Some(o["metadata"].fields) else None;
      Success(Payload(id.value, conversationId.value, senderId.value, content.value,
                      timestamp.value, metadata))
  }

  function ParseVersionOne(c: Codec, envelope: JsonObject): ParsedEvent {
    var eventId := TextField(envelope, "eventId");
    var occurredAt := TextField(envelope, "occurredAt");
    var correlationId := TextField(envelope, "correlationId");
    if eventId.None? || occurredAt.None? || correlationId.None?
       || "payload" !in envelope || !envelope["payload"].Obj? then
      Malformed("Event envelope is missing required fields")
    else
      match ParsePayload(c, envelope["payload"].fields)
      case Failure(reason) => Malformed(reason)
      case Success(payload) =>
        Created(MessageCreatedEvent(eventId.value, occurredAt.value, correlationId.value, payload))
  }

  function ParseEnvelope(c: Codec, envelope: JsonObject): ParsedEvent {
    var eventType := TextField(envelope, "eventType");
    if eventType.None? || "eventVersion" !in envelope || !envelope["eventVersion"].Num? then
      Malformed("Event envelope type/version are invalid")
    else if eventType.value != MESSAGE_CREATED_EVENT_TYPE
         || envelope["eventVersion"].number != MESSAGE_CREATED_EVENT_VERSION then
      UnknownVersion(eventType.value, envelope["eventVersion"].number)
    else
      ParseVersionOne(c, envelope)
  }

  function ParseMessageCreatedEvent(c: Codec, value: Option<Bytes>): ParsedEvent {
    if value.None? then Malformed("Kafka message value is empty") else
    match c.parseJson(c.decodeUtf8(value.value))
    case None => Malformed("Invalid JSON")
    case Some(decoded) =>
      if !decoded.Obj? then Malformed("Event envelope must be an object")
      else ParseEnvelope(c, decoded.fields)
  }

  // ---- What a value must look like to be accepted ----

  /** Every field of `small` is in `big` with the same value. */
  predicate Includes(big: JsonObject, small: JsonObject) {
    forall k :: k in small ==> k in big && big[k] == small[k]
  }

  /** JSON object `o` states payload `p`: all of its fields, and no metadata if it has none. */
  predicate StatesPayload(o: JsonObject, p: Payload) {
    Includes(o, PayloadFields(p)) && (p.metadata.None? ==> "metadata" !in o)
  }

  /** JSON object `o` states event `e`; fields the envelope does not know are ignored. */
  predicate StatesEvent(o: JsonObject, e: MessageCreatedEvent) {
    && "payload" in o && o["payload"].Obj?
    && StatesPayload(o["payload"].fields, e.payload)
    && Includes(o, EnvelopeFields(e) - {"payload"})
  }

  lemma PayloadIncluded(o: JsonObject, p: Payload)
    ensures StatesPayload(o, p)
       <==> && TextField(o, "id") == Some(p.id)
            && TextField(o, "conversationId") == Some(p.conversationId)
            && TextField(o, "senderId") == Some(p.senderId)
            && TextField(o, "content") == Some(p.content)
            && TextField(o, "timestamp") == Some(p.timestamp)
            && (p.metadata.None? <==> "metadata" !in o)
            && (p.metadata.Some? ==> o["metadata"] == Obj(p.metadata.value))
  {
    var f := PayloadFields(p);
    assert f.Keys == {"id", "conversationId", "senderId", "content", "timestamp"}
                     + (if p.metadata.None? then {} else {"metadata"});
    assert f["id"] == Str(p.id);
    assert f["conversationId"] == Str(p.conversationId);
    assert f["senderId"] == Str(p.senderId);
    assert f["content"] == Str(p.content);
    assert f["timestamp"] == Str(p.timestamp);
    assert p.metadata.Some? ==> f["metadata"] == Obj(p.metadata.value);
  }

  lemma PayloadAccepted(c: Codec, o: JsonObject, p: Payload)
    ensures ParsePayload(c, o) == Success(p)
            <==> StatesPayload(o, p) && c.parseDate(p.timestamp).Some?
  {
    PayloadIncluded(o, p);
  }

  /** The header fields of event `e`, as the parser reads them. */
  predicate HasHeader(o: JsonObject, e: MessageCreatedEvent) {
    && TextField(o, "eventId") == Some(e.eventId)
    && TextField(o, "occurredAt") == Some(e.occurredAt)
    && TextField(o, "correlationId") == Some(e.correlationId)
    && TextField(o, "eventType") == Some(MESSAGE_CREATED_EVENT_TYPE)
    && "eventVersion" in o && o["eventVersion"] == Num(MESSAGE_CREATED_EVENT_VERSION)
  }

  lemma EnvelopeRead(c: Codec, o: JsonObject, e: MessageCreatedEvent)
    ensures ParseEnvelope(c, o) == Created(e)
       <==> && HasHeader(o, e) && "payload" in o && o["payload"].Obj?
            && ParsePayload(c, o["payload"].fields) == Success(e.payload)
  {
    if "payload" in o && o["payload"].Obj? {
      var payload := ParsePayload(c, o["payload"].fields);
      assert ParseVersionOne(c, o) == Created(e) ==> payload == Success(e.payload);
    }
  }

  lemma HeaderIncluded(o: JsonObject, e: MessageCreatedEvent)
    ensures Includes(o, EnvelopeFields(e) - {"payload"})
       <==> HasHeader(o, e)
  {
    var f := EnvelopeFields(e) - {"payload"};
    assert f.Keys == {"eventId", "eventType", "eventVersion", "occurredAt", "correlationId"};
    assert f["eventId"] == Str(e.eventId);
    assert f["occurredAt"] == Str(e.occurredAt);
    assert f["correlationId"] == Str(e.correlationId);
    assert f["eventType"] == Str(MESSAGE_CREATED_EVENT_TYPE);
    assert f["eventVersion"] == Num(MESSAGE_CREATED_EVENT_VERSION);
  }

  lemma EnvelopeAccepted(c: Codec, o: JsonObject, e: MessageCreatedEvent)
    ensures ParseEnvelope(c, o) == Created(e)
       <==> StatesEvent(o, e) && c.parseDate(e.payload.timestamp).Some?
  {
    EnvelopeRead(c, o, e);
    HeaderIncluded(o, e);
    if "payload" in o && o["payload"].Obj? { PayloadAccepted(c, o["payload"].fields, e.payload); }
  }

  /** A value is classified as message-created event `e` exactly when it is JSON text of an
      object that states `e`, and the timestamp is a date. */
  lemma ParseExact(c: Codec, value: Option<Bytes>, e: MessageCreatedEvent)
    ensures ParseMessageCreatedEvent(c, value) == Created(e)
       <==> && value.Some?
            && c.parseJson(c.decodeUtf8(value.value)).Some?
            && c.parseJson(c.decodeUtf8(value.value)).value.Obj?
            && StatesEvent(c.parseJson(c.decodeUtf8(value.value)).value.fields, e)
            && c.parseDate(e.payload.timestamp).Some?
  {
    if value.Some? {
      match c.parseJson(c.decodeUtf8(value.value))
      case None =>
      case Some(decoded) =>
        if decoded.Obj? { EnvelopeAccepted(c, decoded.fields, e); }
    }
  }

  // ---- What becomes of every other value ----

  /** The value is JSON text of object `o`. */
  predicate IsEnvelope(c: Codec, value: Option<Bytes>, o: JsonObject) {
    value.Some? && c.parseJson(c.decodeUtf8(value.value)) == Some(Obj(o))
  }

  /** Object `o` names event type `t`, a text, and version `n`, a number. */
  predicate Names(o: JsonObject, t: string, n: Number) {
    "eventType" in o && o["eventType"] == Str(t) && "eventVersion" in o && o["eventVersion"] == Num(n)
  }

  /** The value is an envelope of another type or version than message-created, version 1. */
  ghost predicate IsUnsupported(c: Codec, value: Option<Bytes>, t: string, n: Number) {
    && (t != "message.created" || n != Whole(1))
    && exists o :: IsEnvelope(c, value, o) && Names(o, t, n)
  }

  /** The value is an envelope that states event `e`, whose timestamp is a date. */
  ghost predicate IsStatedEvent(c: Codec, value: Option<Bytes>, e: MessageCreatedEvent) {
    c.parseDate(e.payload.timestamp).Some? && exists o :: IsEnvelope(c, value, o) && StatesEvent(o, e)
  }

  /** A value is skipped exactly when it is an envelope with a text for a type and a number for a version,
      and not those of a message-created event. */
  lemma UnsupportedExact(c: Codec, value: Option<Bytes>, t: string, n: Number)
    ensures ParseMessageCreatedEvent(c, value) == UnknownVersion(t, n) <==> IsUnsupported(c, value, t, n)
  {
    if IsUnsupported(c, value, t, n) {
      var o :| IsEnvelope(c, value, o) && Names(o, t, n);
    }
    if ParseMessageCreatedEvent(c, value) == UnknownVersion(t, n) {
      var o := c.parseJson(c.decodeUtf8(value.value)).value.fields;
      assert IsEnvelope(c, value, o) && Names(o, t, n);
    }
  }

  lemma EventExact(c: Codec, value: Option<Bytes>, e: MessageCreatedEvent)
    ensures ParseMessageCreatedEvent(c, value) == Created(e) <==> IsStatedEvent(c, value, e)
  {
    ParseExact(c, value, e);
    if ParseMessageCreatedEvent(c, value) == Created(e) {
      assert IsEnvelope(c, value, c.parseJson(c.decodeUtf8(value.value)).value.fields);
    }
  }

  /** Object `o` has no text for a type or no number for a version, or claims to be a message-created event
      of version 1 and states none. */
  ghost predicate IsBadEnvelope(c: Codec, o: JsonObject) {
    || (forall t, n :: !Names(o, t, n))
    || (Names(o, "message.created", Whole(1))
        && forall e :: StatesEvent(o, e) ==> c.parseDate(e.payload.timestamp).None?)
  }

  /** The value is empty, or not JSON, or not an object, or a bad envelope. */
  ghost predicate IsMalformed(c: Codec, value: Option<Bytes>) {
    || value.None?
    || c.parseJson(c.decodeUtf8(value.value)).None?
    || !c.parseJson(c.decodeUtf8(value.value)).value.Obj?
    || IsBadEnvelope(c, c.parseJson(c.decodeUtf8(value.value)).value.fields)
  }

  lemma BadEnvelopeExact(c: Codec, o: JsonObject)
    ensures ParseEnvelope(c, o).Malformed? <==> IsBadEnvelope(c, o)
  {
    match ParseEnvelope(c, o)
    case Created(e) =>
      EnvelopeAccepted(c, o, e);
      EnvelopeRead(c, o, e);
      assert Names(o, "message.created", Whole(1));
    case UnknownVersion(t, n) => assert Names(o, t, n);
    case Malformed(_) =>
      forall e ensures StatesEvent(o, e) ==> c.parseDate(e.payload.timestamp).None? { EnvelopeAccepted(c, o, e); }
      if t, n :| Names(o, t, n) { assert Names(o, "message.created", Whole(1)); }
  }

  lemma MalformedExact(c: Codec, value: Option<Bytes>)
    ensures ParseMessageCreatedEvent(c, value).Malformed? <==> IsMalformed(c, value)
  {
    if value.Some? {
      match c.parseJson(c.decodeUtf8(value.value))
      case None =>
      case Some(decoded) =>
        if decoded.Obj? { BadEnvelopeExact(c, decoded.fields); }
    }
  }

  /** The bytes the publisher sends for `e` parse back to `e`. */
  lemma WireRoundTrip(c: Codec, e: MessageCreatedEvent)
    requires Lawful(c)
    requires c.parseDate(e.payload.timestamp).Some?
    ensures ParseMessageCreatedEvent(c, Some(WireValue(c, e))) == Created(e)
  {
    ParseExact(c, Some(WireValue(c, e)), e);
    assert StatesEvent(EnvelopeFields(e), e);
  }

  // ---- The search document ----

  datatype SearchDocument = SearchDocument(
    id: string, conversationId: string, senderId: string, content: string,
    timestamp: int, metadata: Option<JsonObject>)

  /** The stored form: the date is text again. */
  datatype StoredDocument = StoredDocument(
    id: string, conversationId: string, senderId: string, content: string,
    timestamp: string, metadata: Option<JsonObject>)

  datatype Hit = Hit(message: Message, score: real)

  function ProjectEvent(c: Codec, e: MessageCreatedEvent): SearchDocument
    requires c.parseDate(e.payload.timestamp).Some?
  {
    var p := e.payload;
    SearchDocument(p.id, p.conversationId, p.senderId, p.content,
                   c.parseDate(p.timestamp).value, p.metadata)
  }

  function ProjectDocument(c: Codec, d: SearchDocument): StoredDocument {
    StoredDocument(d.id, d.conversationId, d.senderId, d.content, c.isoDate(d.timestamp), d.metadata)
  }

  /** A hit without a source yields nothing; a date that does not parse is an invalid Date in the
      program and, having no counterpart here, yields nothing too. */
  function MapHit(c: Codec, source: Option<StoredDocument>, score: Option<real>): seq<Hit> {
    if source.None? || c.parseDate(source.value.timestamp).None? then [] else
    var d := source.value;
    [Hit(Message(d.id, d.conversationId, d.senderId, d.content, c.parseDate(d.timestamp).value, d.metadata),
         if score.Some? then score.value else 0.0)]
  }

  /** The document the indexer stores for message `m`. */
  function DocumentOf(c: Codec, m: Message): StoredDocument {
    ProjectDocument(c, SearchDocument(m.id, m.conversationId, m.senderId, m.content, m.timestamp, m.metadata))
  }

  /** The whole path: the event built for `m`, sent as bytes, is recognised as message-created,
      is stored as `m`'s document, and a search hit on it gives `m` back. */
  lemma PipelineRoundTrip(c: Codec, m: Message, eventId: string, correlationId: string, now: int,
                          score: Option<real>)
    requires Lawful(c)
    ensures var e := BuildEvent(c, m, eventId, correlationId, now);
      && ParseMessageCreatedEvent(c, Some(WireValue(c, e))) == Created(e)
      && e.eventId == eventId && e.correlationId == correlationId && c.parseDate(e.occurredAt) == Some(now)
      && c.parseDate(e.payload.timestamp).Some?
      && ProjectDocument(c, ProjectEvent(c, e)) == DocumentOf(c, m)
      && MapHit(c, Some(ProjectDocument(c, ProjectEvent(c, e))), score)
         == [Hit(m, if score.Some? then score.value else 0.0)]
      && MapHit(c, None, score) == []
  {
    WireRoundTrip(c, BuildEvent(c, m, eventId, correlationId, now));
  }
}
