/** Whole-run safety of the pipeline: no committed message is lost, the index holds only true
    documents, and it is exactly the message store once nothing is left to do. */
module Delivery {
  import opened Codecs
  import opened Events
  import opened OutboxRows
  import opened Topics
  import opened Protocol

  // ---- What is true of the data ----

  /** Event `e` was built from the stored message with its id. */
  predicate Genuine(c: Codec, messages: map<string, Message>, e: MessageCreatedEvent) {
    e.payload.id in messages && e.payload == ToPayload(c, messages[e.payload.id])
  }

  ghost function GenuineIn(c: Codec, messages: map<string, Message>): Record -> bool {
    (r: Record) =>
      var parsed := ParseMessageCreatedEvent(c, r.value);
      parsed.Created? ==> Genuine(c, messages, parsed.event)
  }

  predicate MessagesInv(messages: map<string, Message>) {
    forall id :: id in messages ==> messages[id].id == id
  }

  ghost predicate RowsInv(c: Codec, messages: map<string, Message>, issuedIds: set<RowId>, rows: Table) {
    forall id :: id in rows ==>
      && id in issuedIds
      && Genuine(c, messages, rows[id].event)
      && rows[id].key == messages[rows[id].event.payload.id].conversationId
  }

  /** Snapshot `e` still agrees with its row, except perhaps on attempts. */
  predicate EntryOk(cfg: Config, messages: map<string, Message>, issuedIds: set<RowId>, rows: Table, e: Entry) {
    && e.id in issuedIds
    && e.attempts < cfg.maxAttempts
    && Genuine(cfg.codec, messages, e.event)
    && (e.id in rows ==> rows[e.id].event == e.event && rows[e.id].key == e.key)
  }

  ghost predicate EntriesInv(cfg: Config, messages: map<string, Message>, issuedIds: set<RowId>, rows: Table,
                             workers: map<InstanceId, Worker>)
  {
    forall w, i :: w in workers && 0 <= i < |workers[w].batch| ==>
      EntryOk(cfg, messages, issuedIds, rows, workers[w].batch[i])
  }

  ghost predicate TopicInv(c: Codec, messages: map<string, Message>, t: Topic) {
    ValidTopic(t) && AllLogged(t, GenuineIn(c, messages))
  }

  /** Every indexed document is the projection of the stored message with its id. */
  ghost predicate IndexInv(c: Codec, messages: map<string, Message>, index: Index) {
    forall id :: id in index ==> id in messages && index[id] == DocumentOf(c, messages[id])
  }

  ghost predicate StreamsInv(c: Codec, messages: map<string, Message>, x: Streams) {
    TopicInv(c, messages, x.main) && TopicInv(c, messages, x.dlq) && IndexInv(c, messages, x.index)
  }

  ghost predicate DataInv(cfg: Config, s: System) {
    && MessagesInv(s.messages)
    && RowsInv(cfg.codec, s.messages, s.issuedIds, s.rows)
    && AllWellShaped(s.rows, cfg.maxAttempts)
    && EntriesInv(cfg, s.messages, s.issuedIds, s.rows, s.workers)
    && StreamsInv(cfg.codec, s.messages, s.streams)
  }

  // ---- What is true of every message ----

  ghost function For(c: Codec, id: string): Record -> bool {
    (r: Record) =>
      var parsed := ParseMessageCreatedEvent(c, r.value);
      parsed.Created? && parsed.event.payload.id == id
  }

  /** Message `id` is indexed, or a record for it has still to be handled. */
  ghost predicate Downstream(c: Codec, x: Streams, id: string) {
    id in x.index || Waiting(x.main, For(c, id)) || Waiting(x.dlq, For(c, id))
  }

  /** Row `r` is for message `id` and has not been published. */
  predicate InOutbox(rows: Table, id: string, r: RowId) {
    r in rows && rows[r].status != Published && rows[r].event.payload.id == id
  }

  /** The event was sent to the main topic, and its message is downstream. */
  ghost predicate Delivered(c: Codec, x: Streams, key: string, e: MessageCreatedEvent) {
    Logged(x.main, EventRecord(c, key, e)) && Downstream(c, x, e.payload.id)
  }

  ghost predicate KeptInv(c: Codec, messages: map<string, Message>, rows: Table, x: Streams) {
    forall id :: id in messages ==> Downstream(c, x, id) || exists r :: InOutbox(rows, id, r)
  }

  ghost predicate PublishedInv(c: Codec, rows: Table, x: Streams) {
    forall r :: r in rows && rows[r].status == Published ==> Delivered(c, x, rows[r].key, rows[r].event)
  }

  /** A publisher about to mark an entry published has sent it. */
  ghost predicate MarkingInv(c: Codec, s: System) {
    forall w :: IsAt(s, w, Marking) ==>
      Delivered(c, s.streams, Current(s.workers[w]).key, Current(s.workers[w]).event)
  }

  ghost predicate SafetyInv(cfg: Config, s: System) {
    && KeptInv(cfg.codec, s.messages, s.rows, s.streams)
    && PublishedInv(cfg.codec, s.rows, s.streams)
    && MarkingInv(cfg.codec, s)
  }

  ghost predicate Inv(cfg: Config, s: System) {
    DataInv(cfg, s) && SafetyInv(cfg, s)
  }

  // ---- Each step keeps the data invariants ----

  lemma StreamsInvGrows(c: Codec, small: map<string, Message>, big: map<string, Message>, x: Streams)
    requires forall id :: id in small ==> id in big && big[id] == small[id]
    requires StreamsInv(c, small, x)
    ensures StreamsInv(c, big, x)
  {
    forall r | GenuineIn(c, small)(r) ensures GenuineIn(c, big)(r) {}
  }

  /** A change to the table that keeps every row's event and key keeps rows and snapshots right. */
  lemma SameEventsKeep(cfg: Config, messages: map<string, Message>, issuedIds: set<RowId>, t: Table, u: Table,
                       workers: map<InstanceId, Worker>)
    requires SameEvents(t, u)
    requires RowsInv(cfg.codec, messages, issuedIds, t) && EntriesInv(cfg, messages, issuedIds, t, workers)
    ensures RowsInv(cfg.codec, messages, issuedIds, u) && EntriesInv(cfg, messages, issuedIds, u, workers)
  {
    forall w, i | w in workers && 0 <= i < |workers[w].batch|
      ensures EntryOk(cfg, messages, issuedIds, u, workers[w].batch[i])
    {
      assert EntryOk(cfg, messages, issuedIds, t, workers[w].batch[i]);
    }
  }

  lemma CreateKeepsRows(cfg: Config, s: System, a: StoreAction)
    requires RowsInv(cfg.codec, s.messages, s.issuedIds, s.rows)
    requires EntriesInv(cfg, s.messages, s.issuedIds, s.rows, s.workers)
    requires a.CreateMessage? && StoreEnabled(s, a)
    ensures var t := ApplyStore(cfg, s, a);
      && RowsInv(cfg.codec, t.messages, t.issuedIds, t.rows)
      && EntriesInv(cfg, t.messages, t.issuedIds, t.rows, t.workers)
  {
    var t := ApplyStore(cfg, s, a);
    forall w, i | w in t.workers && 0 <= i < |t.workers[w].batch|
      ensures EntryOk(cfg, t.messages, t.issuedIds, t.rows, t.workers[w].batch[i])
    {
      assert EntryOk(cfg, s.messages, s.issuedIds, s.rows, s.workers[w].batch[i]);
    }
  }

  lemma CreateKeepsData(cfg: Config, s: System, a: StoreAction)
    requires DataInv(cfg, s) && ValidConfig(cfg) && a.CreateMessage? && StoreEnabled(s, a)
    ensures DataInv(cfg, ApplyStore(cfg, s, a))
  {
    var t := ApplyStore(cfg, s, a);
    CreateKeepsRows(cfg, s, a);
    StreamsInvGrows(cfg.codec, s.messages, t.messages, s.streams);
  }

  lemma StoreKeepsShape(cfg: Config, s: System, a: StoreAction)
    requires cfg.maxAttempts >= 1 && AllWellShaped(s.rows, cfg.maxAttempts) && StoreEnabled(s, a)
    ensures AllWellShaped(ApplyStore(cfg, s, a).rows, cfg.maxAttempts)
    ensures !a.CreateMessage? ==> SameEvents(s.rows, ApplyStore(cfg, s, a).rows)
  {
  }

  lemma StoreKeepsData(cfg: Config, s: System, a: StoreAction)
    requires DataInv(cfg, s) && ValidConfig(cfg) && StoreEnabled(s, a)
    ensures DataInv(cfg, ApplyStore(cfg, s, a))
  {
    StoreKeepsShape(cfg, s, a);
    if a.CreateMessage? {
      CreateKeepsData(cfg, s, a);
    } else {
      SameEventsKeep(cfg, s.messages, s.issuedIds, s.rows, ApplyStore(cfg, s, a).rows, s.workers);
    }
  }

  lemma PublisherKeepsEvents(cfg: Config, s: System, w: InstanceId, a: PublisherAction)
    requires PublisherEnabled(cfg, s, w, a)
    ensures SameEvents(s.rows, ApplyPublisher(cfg, s, w, a).rows)
  {
  }

  lemma PublisherKeepsShape(cfg: Config, s: System, w: InstanceId, a: PublisherAction)
    requires AllWellShaped(s.rows, cfg.maxAttempts) && PublisherEnabled(cfg, s, w, a)
    requires EntriesInv(cfg, s.messages, s.issuedIds, s.rows, s.workers)
    ensures AllWellShaped(ApplyPublisher(cfg, s, w, a).rows, cfg.maxAttempts)
  {
    if a.RecordFailure? {
      var e := Current(s.workers[w]);
      assert EntryOk(cfg, s.messages, s.issuedIds, s.rows, e);
      FailureKeepsShape(s.rows, e.id, w, e.attempts, cfg.maxAttempts, a.failedAt, a.delayMs, a.error);
    }
  }

  /** A step changes a batch only by appending the row it claims, or drops it. */
  lemma BatchesGrow(cfg: Config, s: System, w: InstanceId, a: PublisherAction)
    requires PublisherEnabled(cfg, s, w, a)
    ensures var workers := ApplyPublisher(cfg, s, w, a).workers;
      forall v :: v in workers && workers[v].batch != [] ==>
        || (v in s.workers && workers[v].batch == s.workers[v].batch)
        || (v == w && a.ClaimRow? && IsClaiming(s, w)
            && |workers[w].batch| == |s.workers[w].batch| + 1
            && workers[w].batch[..|s.workers[w].batch|] == s.workers[w].batch
            && workers[w].batch[|s.workers[w].batch|].id == a.id)
  {
  }

  lemma PublisherKeepsEntries(cfg: Config, s: System, w: InstanceId, a: PublisherAction)
    requires RowsInv(cfg.codec, s.messages, s.issuedIds, s.rows) && AllWellShaped(s.rows, cfg.maxAttempts)
    requires EntriesInv(cfg, s.messages, s.issuedIds, s.rows, s.workers) && PublisherEnabled(cfg, s, w, a)
    ensures var t := ApplyPublisher(cfg, s, w, a);
      && RowsInv(cfg.codec, s.messages, s.issuedIds, t.rows)
      && EntriesInv(cfg, s.messages, s.issuedIds, t.rows, t.workers)
  {
    PublisherKeepsEvents(cfg, s, w, a);
    SameEventsKeep(cfg, s.messages, s.issuedIds, s.rows, ApplyPublisher(cfg, s, w, a).rows, s.workers);
    BatchesGrow(cfg, s, w, a);
  }

  lemma WireIsGenuine(c: Codec, messages: map<string, Message>, key: string, e: MessageCreatedEvent)
    requires Lawful(c) && Genuine(c, messages, e)
    ensures GenuineIn(c, messages)(EventRecord(c, key, e))
    ensures For(c, e.payload.id)(EventRecord(c, key, e))
  {
    WireRoundTrip(c, e);
  }

  lemma PublisherKeepsData(cfg: Config, s: System, w: InstanceId, a: PublisherAction)
    requires DataInv(cfg, s) && ValidConfig(cfg) && PublisherEnabled(cfg, s, w, a)
    ensures DataInv(cfg, ApplyPublisher(cfg, s, w, a))
  {
    PublisherKeepsShape(cfg, s, w, a);
    PublisherKeepsEntries(cfg, s, w, a);
    if a.Send? {
      var e := Current(s.workers[w]);
      assert EntryOk(cfg, s.messages, s.issuedIds, s.rows, e);
      WireIsGenuine(cfg.codec, s.messages, e.key, e.event);
    }
  }

  /** A dead-letter copy has the value of its original, so it means the same. */
  lemma DeadLetterMeans(c: Codec, messages: map<string, Message>, r: Record, id: string)
    ensures GenuineIn(c, messages)(DeadLetter(c, r)) == GenuineIn(c, messages)(r)
    ensures For(c, id)(DeadLetter(c, r)) == For(c, id)(r)
  {
  }

  /** Indexing a genuine record stores the projection of its message, and nothing else. */
  lemma IndexedIsGenuine(c: Codec, messages: map<string, Message>, index: Index, r: Record)
    requires Lawful(c) && GenuineIn(c, messages)(r)
    ensures var parsed := ParseMessageCreatedEvent(c, r.value);
      Indexed(c, index, r) ==
        if parsed.Created? then
          var id := parsed.event.payload.id;
          index[id := DocumentOf(c, messages[id])]
        else index
  {
    var parsed := ParseMessageCreatedEvent(c, r.value);
    if parsed.Created? { ParseExact(c, r.value, parsed.event); }
  }

  lemma StreamKeepsTopics(cfg: Config, messages: map<string, Message>, x: Streams, a: StreamAction)
    requires TopicInv(cfg.codec, messages, x.main) && TopicInv(cfg.codec, messages, x.dlq)
    requires StreamEnabled(cfg, x, a)
    ensures TopicInv(cfg.codec, messages, ApplyStream(cfg, x, a).main)
    ensures TopicInv(cfg.codec, messages, ApplyStream(cfg, x, a).dlq)
  {
    if a.Consume? {
      DeadLetterMeans(cfg.codec, messages, x.main[a.partition].log[x.main[a.partition].position], "");
    }
  }

  lemma StreamKeepsData(cfg: Config, messages: map<string, Message>, x: Streams, a: StreamAction)
    requires StreamsInv(cfg.codec, messages, x) && ValidConfig(cfg) && StreamEnabled(cfg, x, a)
    ensures StreamsInv(cfg.codec, messages, ApplyStream(cfg, x, a))
  {
    StreamKeepsTopics(cfg, messages, x, a);
    if a.Consume? {
      IndexedIsGenuine(cfg.codec, messages, x.index, x.main[a.partition].log[x.main[a.partition].position]);
    }
  }

  // ---- Each step keeps every message somewhere ----

  lemma ConsumeKeepsDownstream(cfg: Config, messages: map<string, Message>, x: Streams, a: StreamAction, id: string)
    requires StreamsInv(cfg.codec, messages, x) && ValidConfig(cfg)
    requires a.Consume? && StreamEnabled(cfg, x, a) && Downstream(cfg.codec, x, id)
    ensures Downstream(cfg.codec, ApplyStream(cfg, x, a), id)
  {
    var r := x.main[a.partition].log[x.main[a.partition].position];
    var wanted := For(cfg.codec, id);
    IndexedIsGenuine(cfg.codec, messages, x.index, r);
    DeadLetterMeans(cfg.codec, messages, r, id);
    AppendWaits(x.dlq, a.dlqPartition, DeadLetter(cfg.codec, r), wanted);
    if Waiting(x.main, wanted) { AdvanceWaits(x.main, a.partition, wanted); }
  }

  /** A redrive step leaves nothing behind but the record at the position, and only if that was sent. */
  lemma RedriveWaits(x: Streams, p: nat, q: nat, d: Redriving, wanted: Record -> bool)
    requires p < |x.dlq| && x.dlq[p].Valid() && x.dlq[p].position < |x.dlq[p].log| && q < |x.main|
    requires (d.committed ==> d.sent) && (d.completed ==> d.committed) && Waiting(x.dlq, wanted)
    ensures Waiting(ApplyRedrive(x, p, q, d).dlq, wanted) || (d.sent && wanted(x.dlq[p].log[x.dlq[p].position]))
  {
    var at := x.dlq[p].position;
    CommitWaits(x.dlq, p, at + 1, wanted);
    var dlq := if d.committed then Commit(x.dlq, p, at + 1) else x.dlq;
    if Waiting(dlq, wanted) { AdvanceWaits(dlq, p, wanted); }
  }

  lemma RedriveKeepsDownstream(cfg: Config, x: Streams, a: StreamAction, id: string)
    requires ValidTopic(x.main) && ValidTopic(x.dlq)
    requires a.RedriveRecord? && StreamEnabled(cfg, x, a) && Downstream(cfg.codec, x, id)
    ensures Downstream(cfg.codec, ApplyStream(cfg, x, a), id)
  {
    var wanted := For(cfg.codec, id);
    AppendWaits(x.main, a.mainPartition, x.dlq[a.partition].log[x.dlq[a.partition].position], wanted);
    if Waiting(x.dlq, wanted) { RedriveWaits(x, a.partition, a.mainPartition, a.redriving, wanted); }
  }

  lemma StreamKeepsDownstream(cfg: Config, messages: map<string, Message>, x: Streams, a: StreamAction, id: string)
    requires StreamsInv(cfg.codec, messages, x) && ValidConfig(cfg)
    requires StreamEnabled(cfg, x, a) && Downstream(cfg.codec, x, id)
    ensures Downstream(cfg.codec, ApplyStream(cfg, x, a), id)
  {
    var wanted := For(cfg.codec, id);
    match a {
      case ForeignRecord(p, r) => AppendWaits(x.main, p, r, wanted);
      case Consume(_, _, _) => ConsumeKeepsDownstream(cfg, messages, x, a, id);
      case CommitMain(p, offset) => if Waiting(x.main, wanted) { CommitWaits(x.main, p, offset, wanted); }
      case RestartConsumer(p) => if Waiting(x.main, wanted) { RewindWaits(x.main, p, wanted); }
      case RedriveRecord(_, _, _) => RedriveKeepsDownstream(cfg, x, a, id);
      case RestartRedrive(p) => if Waiting(x.dlq, wanted) { RewindWaits(x.dlq, p, wanted); }
    }
  }

  /** Nothing downstream of the outbox is lost on the way from `x` to `y`. */
  ghost predicate Onward(c: Codec, x: Streams, y: Streams) {
    && Extends(x.main, y.main)
    && forall id :: Downstream(c, x, id) ==> Downstream(c, y, id)
  }

  lemma OnwardKeepsDelivered(c: Codec, x: Streams, y: Streams, key: string, e: MessageCreatedEvent)
    requires Onward(c, x, y) && Delivered(c, x, key, e)
    ensures Delivered(c, y, key, e)
  {
    LoggedStays(x.main, y.main, EventRecord(c, key, e));
  }

  lemma StreamOnward(cfg: Config, messages: map<string, Message>, x: Streams, a: StreamAction)
    requires StreamsInv(cfg.codec, messages, x) && ValidConfig(cfg) && StreamEnabled(cfg, x, a)
    ensures Onward(cfg.codec, x, ApplyStream(cfg, x, a))
  {
    forall id | Downstream(cfg.codec, x, id) ensures Downstream(cfg.codec, ApplyStream(cfg, x, a), id) {
      StreamKeepsDownstream(cfg, messages, x, a, id);
    }
  }

  lemma StreamKeepsSafety(cfg: Config, s: System, x: Streams)
    requires SafetyInv(cfg, s) && Onward(cfg.codec, s.streams, x)
    ensures SafetyInv(cfg, s.(streams := x))
  {
    forall key, e | Delivered(cfg.codec, s.streams, key, e) ensures Delivered(cfg.codec, x, key, e) {
      OnwardKeepsDelivered(cfg.codec, s.streams, x, key, e);
    }
    assert forall w, stage :: IsAt(s.(streams := x), w, stage) == IsAt(s, w, stage);
  }

  lemma StoreKeepsKept(cfg: Config, s: System, a: StoreAction)
    requires KeptInv(cfg.codec, s.messages, s.rows, s.streams) && StoreEnabled(s, a)
    requires RowsInv(cfg.codec, s.messages, s.issuedIds, s.rows)
    ensures var t := ApplyStore(cfg, s, a); KeptInv(cfg.codec, t.messages, t.rows, s.streams)
  {
    var t := ApplyStore(cfg, s, a);
    forall id | id in t.messages && !Downstream(cfg.codec, s.streams, id) ensures exists r :: InOutbox(t.rows, id, r) {
      if id in s.messages {
        var r :| InOutbox(s.rows, id, r);
        assert InOutbox(t.rows, id, r);
      } else {
        assert InOutbox(t.rows, id, a.rowId);
      }
    }
  }

  lemma StoreKeepsSafety(cfg: Config, s: System, a: StoreAction)
    requires SafetyInv(cfg, s) && RowsInv(cfg.codec, s.messages, s.issuedIds, s.rows) && StoreEnabled(s, a)
    ensures SafetyInv(cfg, ApplyStore(cfg, s, a))
  {
    StoreKeepsKept(cfg, s, a);
    assert forall w, stage :: IsAt(ApplyStore(cfg, s, a), w, stage) == IsAt(s, w, stage);
  }

  lemma PublisherOnward(cfg: Config, s: System, w: InstanceId, a: PublisherAction)
    requires ValidTopic(s.streams.main) && PublisherEnabled(cfg, s, w, a)
    ensures Onward(cfg.codec, s.streams, ApplyPublisher(cfg, s, w, a).streams)
  {
    if a.Send? {
      var e := Current(s.workers[w]);
      var r := EventRecord(cfg.codec, e.key, e.event);
      forall id ensures Downstream(cfg.codec, s.streams, id)
                    ==> Downstream(cfg.codec, ApplyPublisher(cfg, s, w, a).streams, id)
      {
        AppendWaits(s.streams.main, a.partition, r, For(cfg.codec, id));
      }
    }
  }

  /** Sending an entry delivers it. */
  lemma SendDelivers(cfg: Config, s: System, w: InstanceId, a: PublisherAction)
    requires DataInv(cfg, s) && ValidConfig(cfg)
    requires a.Send? && a.appended && PublisherEnabled(cfg, s, w, a)
    ensures var e := Current(s.workers[w]);
      Delivered(cfg.codec, ApplyPublisher(cfg, s, w, a).streams, e.key, e.event)
  {
    var e := Current(s.workers[w]);
    assert EntryOk(cfg, s.messages, s.issuedIds, s.rows, e);
    WireIsGenuine(cfg.codec, s.messages, e.key, e.event);
    var r := EventRecord(cfg.codec, e.key, e.event);
    AppendLogs(s.streams.main, a.partition, r);
    AppendWaits(s.streams.main, a.partition, r, For(cfg.codec, e.event.payload.id));
  }

  lemma PublisherKeepsMarking(cfg: Config, s: System, w: InstanceId, a: PublisherAction)
    requires DataInv(cfg, s) && ValidConfig(cfg) && MarkingInv(cfg.codec, s) && PublisherEnabled(cfg, s, w, a)
    ensures MarkingInv(cfg.codec, ApplyPublisher(cfg, s, w, a))
  {
    var t := ApplyPublisher(cfg, s, w, a);
    PublisherOnward(cfg, s, w, a);
    forall v | IsAt(t, v, Marking)
      ensures Delivered(cfg.codec, t.streams, Current(t.workers[v]).key, Current(t.workers[v]).event)
    {
      if v == w {
        SendDelivers(cfg, s, w, a);
      } else {
        assert IsAt(s, v, Marking);
        OnwardKeepsDelivered(cfg.codec, s.streams, t.streams, Current(s.workers[v]).key, Current(s.workers[v]).event);
      }
    }
  }

  /** A publisher adds no row, drops none, and publishes only what it has delivered. */
  lemma PublisherRow(cfg: Config, s: System, w: InstanceId, a: PublisherAction, r: RowId)
    requires EntriesInv(cfg, s.messages, s.issuedIds, s.rows, s.workers) && PublisherEnabled(cfg, s, w, a)
    requires MarkingInv(cfg.codec, s) && PublishedInv(cfg.codec, s.rows, s.streams)
    ensures var rows := ApplyPublisher(cfg, s, w, a).rows;
      && (r in rows <==> r in s.rows)
      && (r in rows ==> rows[r].event == s.rows[r].event && rows[r].key == s.rows[r].key)
      && (r in rows && rows[r].status == Published ==>
            Delivered(cfg.codec, s.streams, s.rows[r].key, s.rows[r].event))
  {
    if a.Mark? { assert EntryOk(cfg, s.messages, s.issuedIds, s.rows, Current(s.workers[w])); }
  }

  lemma PublisherKeepsPublished(cfg: Config, s: System, w: InstanceId, a: PublisherAction, r: RowId)
    requires EntriesInv(cfg, s.messages, s.issuedIds, s.rows, s.workers) && PublisherEnabled(cfg, s, w, a)
    requires MarkingInv(cfg.codec, s) && PublishedInv(cfg.codec, s.rows, s.streams)
    requires Onward(cfg.codec, s.streams, ApplyPublisher(cfg, s, w, a).streams)
    ensures var t := ApplyPublisher(cfg, s, w, a);
      && (r in t.rows && t.rows[r].status == Published ==>
            Delivered(cfg.codec, t.streams, t.rows[r].key, t.rows[r].event))
      && forall id :: InOutbox(s.rows, id, r) ==> InOutbox(t.rows, id, r) || Downstream(cfg.codec, t.streams, id)
  {
    var t := ApplyPublisher(cfg, s, w, a);
    PublisherRow(cfg, s, w, a, r);
    if r in t.rows && t.rows[r].status == Published {
      OnwardKeepsDelivered(cfg.codec, s.streams, t.streams, s.rows[r].key, s.rows[r].event);
    }
  }

  lemma PublisherKeepsSafety(cfg: Config, s: System, w: InstanceId, a: PublisherAction)
    requires DataInv(cfg, s) && SafetyInv(cfg, s) && ValidConfig(cfg) && PublisherEnabled(cfg, s, w, a)
    ensures SafetyInv(cfg, ApplyPublisher(cfg, s, w, a))
  {
    var t := ApplyPublisher(cfg, s, w, a);
    PublisherKeepsMarking(cfg, s, w, a);
    PublisherOnward(cfg, s, w, a);
    forall r ensures r in t.rows && t.rows[r].status == Published ==>
                       Delivered(cfg.codec, t.streams, t.rows[r].key, t.rows[r].event)
    {
      PublisherKeepsPublished(cfg, s, w, a, r);
    }
    forall id | id in t.messages && !Downstream(cfg.codec, t.streams, id) ensures exists r :: InOutbox(t.rows, id, r) {
      assert t.messages == s.messages;
      var r :| InOutbox(s.rows, id, r);
      PublisherKeepsPublished(cfg, s, w, a, r);
    }
  }

  // ---- The theorems ----

  lemma InvInit(cfg: Config, s: System)
    requires Init(s)
    ensures Inv(cfg, s)
  {
  }

  lemma InvStep(cfg: Config, s: System, a: Action)
    requires Inv(cfg, s) && ValidConfig(cfg) && Enabled(cfg, s, a)
    ensures Inv(cfg, Apply(cfg, s, a))
  {
    match a {
      case Store(b) => StoreKeepsData(cfg, s, b); StoreKeepsSafety(cfg, s, b);
      case Publisher(w, b) => PublisherKeepsData(cfg, s, w, b); PublisherKeepsSafety(cfg, s, w, b);
      case Stream(b) =>
        StreamKeepsData(cfg, s.messages, s.streams, b);
        StreamOnward(cfg, s.messages, s.streams, b);
        StreamKeepsSafety(cfg, s, ApplyStream(cfg, s.streams, b));
    }
  }

  lemma {:induction false} InvRun(cfg: Config, s: System, actions: seq<Action>, t: System)
    requires Inv(cfg, s) && ValidConfig(cfg) && Reaches(cfg, s, actions, t)
    ensures Inv(cfg, t)
    decreases |actions|
  {
    if actions != [] {
      InvStep(cfg, s, actions[0]);
      InvRun(cfg, Apply(cfg, s, actions[0]), actions[1..], t);
    }
  }

  /** Some record for message `id` lies at or past its partition's committed offset. */
  predicate Uncommitted(c: Codec, t: Topic, id: string) {
    exists p, i :: 0 <= p < |t| && t[p].committed <= i < |t[p].log|
      && ParseMessageCreatedEvent(c, t[p].log[i].value).Created?
      && ParseMessageCreatedEvent(c, t[p].log[i].value).event.payload.id == id
  }

  lemma WaitingIsUncommitted(c: Codec, t: Topic, id: string)
    requires Waiting(t, For(c, id))
    ensures Uncommitted(c, t, id)
  {
    var p, i :| WaitsAt(t, For(c, id), p, i);
    assert t[p].committed <= i < |t[p].log|;
  }

  /** On every run, with any interleaving, crashes, stolen leases, redrives and expiries, each
      created message has an unpublished outbox row, or a record the search indexer has not
      committed, or a dead-letter record the redrive has not committed, or is in the index. */
  lemma NoMessageLost(cfg: Config, s: System, actions: seq<Action>, t: System, id: string)
    requires ValidConfig(cfg) && Init(s) && Reaches(cfg, s, actions, t) && id in t.messages
    ensures (exists r :: InOutbox(t.rows, id, r))
         || Uncommitted(cfg.codec, t.streams.main, id)
         || Uncommitted(cfg.codec, t.streams.dlq, id)
         || id in t.streams.index
  {
    InvInit(cfg, s);
    InvRun(cfg, s, actions, t);
    if Waiting(t.streams.main, For(cfg.codec, id)) { WaitingIsUncommitted(cfg.codec, t.streams.main, id); }
    if Waiting(t.streams.dlq, For(cfg.codec, id)) { WaitingIsUncommitted(cfg.codec, t.streams.dlq, id); }
  }

  predicate IsEvent(c: Codec, r: Record) {
    ParseMessageCreatedEvent(c, r.value).Created?
  }

  /** No event lies at or past a committed offset. Other records may: a malformed one goes round between
      the two topics for as long as anyone redrives it. */
  predicate NoEventWaits(c: Codec, t: Topic) {
    forall p, i :: 0 <= p < |t| && t[p].committed <= i < |t[p].log| ==> !IsEvent(c, t[p].log[i])
  }

  /** Nothing is left to do: every row is published, and every event of both topics is committed. */
  predicate Quiescent(c: Codec, s: System) {
    && (forall r :: r in s.rows ==> s.rows[r].status == Published)
    && NoEventWaits(c, s.streams.main) && NoEventWaits(c, s.streams.dlq)
  }

  /** On every run the index holds only documents of stored messages; when nothing is left to do it
      is exactly the message store, however often events were repeated, reordered or redriven. */
  lemma IndexConverges(cfg: Config, s: System, actions: seq<Action>, t: System)
    requires ValidConfig(cfg) && Init(s) && Reaches(cfg, s, actions, t)
    ensures forall id :: id in t.streams.index ==>
      id in t.messages && t.streams.index[id] == DocumentOf(cfg.codec, t.messages[id])
    ensures Quiescent(cfg.codec, t) ==>
      t.streams.index == map id | id in t.messages :: DocumentOf(cfg.codec, t.messages[id])
  {
    InvInit(cfg, s);
    InvRun(cfg, s, actions, t);
    if Quiescent(cfg.codec, t) {
      forall id | id in t.messages ensures id in t.streams.index {
        NoMessageLost(cfg, s, actions, t, id);
      }
    }
  }

  /** On every run, a published row's event is in the main topic, in a record that parses back to it,
      is keyed by the conversation, and tells of a message that is stored just so. */
  lemma PublishedIsTruthful(cfg: Config, s: System, actions: seq<Action>, t: System, r: RowId)
    requires ValidConfig(cfg) && Init(s) && Reaches(cfg, s, actions, t)
    requires r in t.rows && t.rows[r].status == Published
    ensures var e := t.rows[r].event;
      var record := EventRecord(cfg.codec, t.rows[r].key, e);
      && Logged(t.streams.main, record)
      && ParseMessageCreatedEvent(cfg.codec, record.value) == Created(e)
      && e.payload.id in t.messages && e.payload == ToPayload(cfg.codec, t.messages[e.payload.id])
      && record.key.Some? && cfg.codec.decodeUtf8(record.key.value) == t.messages[e.payload.id].conversationId
  {
    InvInit(cfg, s);
    InvRun(cfg, s, actions, t);
    assert Genuine(cfg.codec, t.messages, t.rows[r].event);
    WireRoundTrip(cfg.codec, t.rows[r].event);
  }

  /** Published is final: on any continuation of any run a published row stays as it is until it
      expires, and it never comes back. */
  lemma {:induction false} PublishedIsFinal(cfg: Config, s: System, actions: seq<Action>, t: System, r: RowId)
    requires Reaches(cfg, s, actions, t)
    requires r in s.issuedIds && (r in s.rows ==> s.rows[r].status == Published)
    ensures r in t.rows ==> r in s.rows && t.rows[r] == s.rows[r]
    decreases |actions|
  {
    if actions != [] { PublishedIsFinal(cfg, Apply(cfg, s, actions[0]), actions[1..], t, r); }
  }

  /** A row that has not been published is never dropped, and one that has only after seven days. */
  lemma UnpublishedStays(cfg: Config, s: System, a: Action, r: RowId)
    requires Enabled(cfg, s, a) && r in s.rows
    ensures s.rows[r].status != Published ==> r in Apply(cfg, s, a).rows
    ensures r !in Apply(cfg, s, a).rows ==>
      s.rows[r].publishedAt.Some? && s.clock - s.rows[r].publishedAt.value >= 604_800_000
  {
  }

  /** On every run, a row is locked exactly while publishing, is dated exactly when published, has
      fewer than the maximum of attempts unless it failed, and exactly the maximum if it did. */
  lemma RowsWellShaped(cfg: Config, s: System, actions: seq<Action>, t: System)
    requires ValidConfig(cfg) && Init(s) && Reaches(cfg, s, actions, t)
    ensures AllWellShaped(t.rows, cfg.maxAttempts)
  {
    InvInit(cfg, s);
    InvRun(cfg, s, actions, t);
  }
}
