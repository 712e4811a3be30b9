/** The search indexer's handling of one Kafka record: parse it, index its document with bounded
    retries, and send to the dead-letter topic what cannot be indexed. */
module Indexer {
  import opened Wrappers
  import opened Codecs
  import opened Events
  import opened RetryDelays
  import opened Topics
  import opened Protocol

  const MAX_INDEX_ATTEMPTS: nat := 5

  /** The search engine's answer to one upsert: success, or a thrown value, after which the upsert
      may nevertheless have taken effect. */
  datatype Reply = Accepted | Rejected(error: Json, tookEffect: bool)

  /** What the dead-letter send meets. */
  datatype DlqReply = DlqReply(partition: nat, appended: bool, acknowledged: bool)

  function StatusCode(error: JsonObject): Option<Number> {
    if "meta" in error && error["meta"].Obj?
       && "statusCode" in error["meta"].fields && error["meta"].fields["statusCode"].Num?
    then Some(error["meta"].fields["statusCode"].number) else None
  }

  predicate IsRetryable(error: Json) {
    error.Obj? &&
    var name := TextField(error.fields, "name");
    var status := StatusCode(error.fields);
    || name == Some("ConnectionError") || name == Some("TimeoutError")
    || (status.Some? && (status.value == Whole(408) || status.value == Whole(429) || status.value.floor >= 500))
  }

  /** The retry loop ends with call `k`, counted from 0: it succeeds, cannot be retried, or is the
      last one allowed. */
  predicate Stops(replies: seq<Reply>, k: nat)
    requires k < |replies|
  {
    replies[k].Accepted? || !IsRetryable(replies[k].error) || k == MAX_INDEX_ATTEMPTS - 1
  }

  /** Some of the first `n` upserts took effect. */
  predicate TookEffect(replies: seq<Reply>, n: nat)
    requires n <= |replies|
  {
    exists k :: 0 <= k < n && (replies[k].Accepted? || replies[k].tookEffect)
  }

  /** Calls are made until the first that stops: `calls` of them. */
  predicate EndsAfter(replies: seq<Reply>, calls: nat)
    requires |replies| == MAX_INDEX_ATTEMPTS
  {
    && 1 <= calls <= MAX_INDEX_ATTEMPTS && Stops(replies, calls - 1)
    && forall k :: 0 <= k < calls - 1 ==> !Stops(replies, k)
  }

  /** An error is worth another call exactly when it is an object that is named for a lost connection or a
      time-out, or whose meta data hold the status code 408, 429, or at least 500. */
  lemma RetryableExact(error: Json)
    ensures IsRetryable(error) <==> exists o ::
      && error == Obj(o)
      && (|| HasField(o, "name", Str("ConnectionError")) || HasField(o, "name", Str("TimeoutError"))
          || exists meta, n :: HasField(o, "meta", Obj(meta)) && HasField(meta, "statusCode", Num(n))
                               && (n == Whole(408) || n == Whole(429) || n.floor >= 500))
  {
    if IsRetryable(error) {
      var o := error.fields;
      if StatusCode(o).Some? {
        assert HasField(o, "meta", Obj(o["meta"].fields));
        assert HasField(o["meta"].fields, "statusCode", Num(StatusCode(o).value));
      }
      assert error == Obj(o);
    }
  }

  /** The document stored for event `e`: its payload, with the date written again. */
  function StoredFor(c: Codec, e: MessageCreatedEvent): StoredDocument
    requires c.parseDate(e.payload.timestamp).Some?
  {
    var p := e.payload;
    StoredDocument(p.id, p.conversationId, p.senderId, p.content, c.isoDate(c.parseDate(p.timestamp).value), p.metadata)
  }

  /** The dead-letter topic after the send: one more record in one partition, with the same value and the
      key decoded and encoded again; or the same. */
  function AfterDlq(c: Codec, t: Topic, r: Record, reply: DlqReply): Topic
    requires reply.partition < |t|
  {
    var part := t[reply.partition];
    var key := if r.key.Some? then Some(c.encodeUtf8(c.decodeUtf8(r.key.value))) else None;
    if !reply.appended then t
    else t[reply.partition := Partition(part.log + [Record(key, r.value)], part.committed, part.position)]
  }

  ghost predicate ValidJitter(jitter: seq<real>) {
    forall k :: 0 <= k < |jitter| ==> 0.0 <= jitter[k] <= 1.0
  }

  /** What kind of value it is, told without the parser. */
  lemma OneOfThree(c: Codec, value: Option<Bytes>)
    ensures forall t, n :: IsUnsupported(c, value, t, n) ==> ParseMessageCreatedEvent(c, value) == UnknownVersion(t, n)
    ensures IsMalformed(c, value) ==> ParseMessageCreatedEvent(c, value).Malformed?
    ensures forall e :: IsStatedEvent(c, value, e) ==> ParseMessageCreatedEvent(c, value) == Created(e)
  {
    forall t, n | IsUnsupported(c, value, t, n) ensures ParseMessageCreatedEvent(c, value) == UnknownVersion(t, n) {
      UnsupportedExact(c, value, t, n);
    }
    MalformedExact(c, value);
    forall e | IsStatedEvent(c, value, e) ensures ParseMessageCreatedEvent(c, value) == Created(e) {
      EventExact(c, value, e);
    }
  }

  class MessageCreatedConsumer {
    const codec: Codec
    var index: Index
    var dlq: Topic

    constructor (codec: Codec, index: Index, dlq: Topic)
      ensures this.codec == codec && this.index == index && this.dlq == dlq
    {
      this.codec := codec;
      this.index := index;
      this.dlq := dlq;
    }

    method IndexMessage(document: SearchDocument, reply: Reply)
      modifies this`index
      ensures index == if reply.Accepted? || reply.tookEffect
        then old(index)[document.id := ProjectDocument(codec, document)] else old(index)
    {
      if reply.Accepted? || reply.tookEffect {
        index := index[document.id := ProjectDocument(codec, document)];
      }
    }

    /** The calls end with the first that stops, and the waits between them sum to at most 4.5
        seconds. However many calls took effect, the document is in the index once. */
    method IndexWithRetry(document: SearchDocument, replies: seq<Reply>, jitter: seq<real>)
      returns (indexed: bool, calls: nat, waitedMs: nat)
      requires |replies| == |jitter| == MAX_INDEX_ATTEMPTS && ValidJitter(jitter)
      modifies this`index
      ensures EndsAfter(replies, calls)
      ensures indexed <==> replies[calls - 1].Accepted?
      ensures !indexed && calls != 5 ==> !IsRetryable(replies[calls - 1].error)
      ensures 200 * (Pow2(calls - 1) - 1) <= waitedMs <= 300 * (Pow2(calls - 1) - 1) <= 4_500
      ensures index == if TookEffect(replies, calls)
        then old(index)[document.id := ProjectDocument(codec, document)] else old(index)
    {
      indexed, calls, waitedMs := false, 0, 0;
      while true
        invariant calls < MAX_INDEX_ATTEMPTS && 200 * (Pow2(calls) - 1) <= waitedMs <= 300 * (Pow2(calls) - 1)
        invariant forall k :: 0 <= k < calls ==> !Stops(replies, k)
        invariant index == if TookEffect(replies, calls)
          then old(index)[document.id := ProjectDocument(codec, document)] else old(index)
        decreases MAX_INDEX_ATTEMPTS - calls
      {
        var reply := replies[calls];
        IndexMessage(document, reply);
        calls := calls + 1;
        assert TookEffect(replies, calls) <==> TookEffect(replies, calls - 1) || reply.Accepted? || reply.tookEffect;
        if reply.Accepted? {
          indexed := true;
          break;
        }
        if !IsRetryable(reply.error) || calls == MAX_INDEX_ATTEMPTS { break; }
        IndexRetryDelayBounds(calls, jitter[calls - 1]);
        waitedMs := waitedMs + IndexRetryDelay(calls, jitter[calls - 1]);
      }
      Pow2Monotone(calls - 1, 4);
      assert Pow2(4) == 16;
    }

    method PublishToDlq(record: Record, reply: DlqReply) returns (ok: bool)
      requires reply.partition < |dlq| && (reply.acknowledged ==> reply.appended)
      modifies this`dlq
      ensures ok == reply.acknowledged
      ensures dlq == if reply.appended then Append(old(dlq), reply.partition, DeadLetter(codec, record)) else old(dlq)
      ensures dlq == AfterDlq(codec, old(dlq), record, reply)
    {
      if reply.appended { dlq := Append(dlq, reply.partition, DeadLetter(codec, record)); }
      ok := reply.acknowledged;
    }

    /** Handle one record. `completed` says that no exception escapes, so that the consumer moves
        on; `h` says what was done, and is what the protocol allows for such a record. A value of another
        type or version is skipped; a malformed one is dead-lettered; a stated event is indexed, or
        dead-lettered if the calls do not end well. */
    method HandleMessage(record: Record, replies: seq<Reply>, jitter: seq<real>, dlqReply: DlqReply)
      returns (completed: bool, ghost h: Handling)
      requires Lawful(codec) && |replies| == |jitter| == MAX_INDEX_ATTEMPTS && ValidJitter(jitter)
      requires dlqReply.partition < |dlq| && (dlqReply.acknowledged ==> dlqReply.appended)
      modifies this`index, this`dlq
      ensures h.completed == completed && MayHandle(codec, record, h)
      ensures index == if h.indexed then Indexed(codec, old(index), record) else old(index)
      ensures dlq == if h.deadLettered then Append(old(dlq), dlqReply.partition, DeadLetter(codec, record))
                     else old(dlq)
      ensures forall t, n :: IsUnsupported(codec, record.value, t, n) ==>
        completed && index == old(index) && dlq == old(dlq)
      ensures IsMalformed(codec, record.value) ==>
        && completed == dlqReply.acknowledged && h.deadLettered == dlqReply.appended
        && index == old(index) && dlq == AfterDlq(codec, old(dlq), record, dlqReply)
      ensures forall e :: IsStatedEvent(codec, record.value, e) ==>
        exists calls: nat ::
          && EndsAfter(replies, calls)
          && index == (if TookEffect(replies, calls) then old(index)[e.payload.id := StoredFor(codec, e)]
                       else old(index))
          && (if replies[calls - 1].Accepted? then completed && dlq == old(dlq)
              else completed == dlqReply.acknowledged && dlq == AfterDlq(codec, old(dlq), record, dlqReply))
    {
      var parsed := ParseMessageCreatedEvent(codec, record.value);
      OneOfThree(codec, record.value);
      h := Handling(false, false, true);
      match parsed {
        case UnknownVersion(_, _) => completed := true;
        case Malformed(_) =>
          completed := PublishToDlq(record, dlqReply);
          h := Handling(false, dlqReply.appended, completed);
        case Created(event) =>
          ParseExact(codec, record.value, event);
          var indexed, calls, waited := IndexWithRetry(ProjectEvent(codec, event), replies, jitter);
          completed := true;
          h := Handling(TookEffect(replies, calls), false, true);
          if !indexed {
            completed := PublishToDlq(record, dlqReply);
            h := Handling(TookEffect(replies, calls), dlqReply.appended, completed);
          }
      }
    }
  }

  // ---- Dead-letter copies ----

  /** A record after `n` trips through the dead-letter topic and back; the way back copies it. */
  function AfterTrips(c: Codec, r: Record, n: nat): Record {
    if n == 0 then r else DeadLetter(c, AfterTrips(c, r, n - 1))
  }

  /** However many trips a record makes, its value survives; its key survives exactly when it is
      absent or is UTF-8 text, and is not altered further after the first trip. */
  lemma {:induction false} TripsPreserve(c: Codec, r: Record, n: nat)
    requires Lawful(c)
    ensures AfterTrips(c, r, n).value == r.value
    ensures n > 0 ==> AfterTrips(c, r, n) == DeadLetter(c, r)
    ensures n > 0 ==> (AfterTrips(c, r, n).key == r.key
                       <==> r.key.None? || exists text :: r.key.value == c.encodeUtf8(text))
  {
    if n > 0 { TripsPreserve(c, r, n - 1); }
    if n > 0 && r.key.Some? && c.encodeUtf8(c.decodeUtf8(r.key.value)) == r.key.value {
      assert exists text :: r.key.value == c.encodeUtf8(text);
    }
  }
}
