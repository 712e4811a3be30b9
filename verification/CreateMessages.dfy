/** Creating a message: one transaction inserts the message and its outbox row, or neither. */
module CreateMessages {
  import opened Wrappers
  import opened Codecs
  import opened Events
  import opened OutboxRows
  import opened OutboxRepository
  import opened Listing
  import P = Protocol

  datatype CreateMessageCommand = CreateMessageCommand(
    conversationId: string, senderId: string, content: string, correlationId: string, metadata: Option<JsonObject>)

  /** What the transaction meets: an insert can fail, and the commit can report an error before or after
      it takes effect. */
  datatype TransactionCalls = TransactionCalls(messageInsertFails: bool, rowInsertFails: bool, commit: P.Fault)

  function EntityOf(command: CreateMessageCommand, now: int): MessageEntity {
    MessageEntity(command.conversationId, command.senderId, command.content, now, command.metadata)
  }

  /** The row that announces message `m`: pending, due at once, keyed by its conversation. */
  function RowOf(c: Codec, m: Message, eventId: string, correlationId: string): Row {
    NewRow(BuildEvent(c, m, eventId, correlationId, m.timestamp), m.conversationId, m.timestamp)
  }

  /** Message `m` says what the command said, and row `r` is due at once and announces `m`. */
  predicate States(m: Message, r: Row, command: CreateMessageCommand, now: int) {
    && m.conversationId == command.conversationId && m.senderId == command.senderId
    && m.content == command.content && m.metadata == command.metadata && m.timestamp == now
    && r.status == Pending && r.attempts == 0 && r.nextAttemptAt == now && r.createdAt == now
    && r.key == command.conversationId && r.event.correlationId == command.correlationId
    && r.event.payload.id == m.id && r.event.payload.conversationId == command.conversationId
    && r.event.payload.senderId == command.senderId && r.event.payload.content == command.content
    && r.event.payload.metadata == command.metadata
  }

  class CreateMessageService {
    const codec: Codec
    const messages: MongoMessageRepository
    const outbox: MongoOutboxRepository

    constructor (messages: MongoMessageRepository, outbox: MongoOutboxRepository)
      ensures this.codec == messages.codec && this.messages == messages && this.outbox == outbox
    {
      this.codec := messages.codec;
      this.messages := messages;
      this.outbox := outbox;
    }

    /** Message and row are inserted together, under the fresh ids the database gives them, or both
        collections are as they were. If all goes well they are inserted. */
    method Execute(command: CreateMessageCommand, now: int, id: ObjectId, rowId: RowId, eventId: string,
                   calls: TransactionCalls)
      returns (r: Option<Message>, ghost committed: bool)
      requires codec == messages.codec && id !in messages.messages && rowId !in outbox.rows
      modifies messages, outbox
      ensures var m := ToMessage(codec, id, EntityOf(command, now));
        && messages.messages == (if committed then old(messages.messages)[id := EntityOf(command, now)]
                                 else old(messages.messages))
        && outbox.rows == (if committed then old(outbox.rows)[rowId := RowOf(codec, m, eventId, command.correlationId)]
                           else old(outbox.rows))
        && (r.Some? ==> committed && r.value == m)
      ensures committed ==> id in messages.messages && rowId in outbox.rows
      ensures committed ==> States(ToMessage(codec, id, messages.messages[id]), outbox.rows[rowId], command, now)
      ensures r.Some? <==> !calls.messageInsertFails && !calls.rowInsertFails && calls.commit == P.NoFault
      ensures committed ==> r.Some? || calls.commit == P.ErrorAfter
    {
      var messagesBefore, rowsBefore := messages.messages, outbox.rows;
      if calls.messageInsertFails { return None, false; }
      var message := messages.Create(id, EntityOf(command, now));
      var event := BuildEvent(codec, message, eventId, command.correlationId, now);
      if !calls.rowInsertFails {
        outbox.Create(rowId, event, message.conversationId, now);
      }
      if calls.rowInsertFails || calls.commit == P.ErrorBefore {
        messages.messages, outbox.rows := messagesBefore, rowsBefore;
        return None, false;
      }
      r, committed := if calls.commit == P.NoFault then Some(message) else None, true;
    }
  }

  // ---- The same as a step of the pipeline ----

  /** The pipeline's messages are the collection's, by the text of their ids. */
  ghost predicate SameMessages(c: Codec, m: Collection, messages: map<string, Message>) {
    && (forall id :: id in m ==> c.formatId(id) in messages && messages[c.formatId(id)] == ToMessage(c, id, m[id]))
    && (forall text :: text in messages ==> exists id :: id in m && c.formatId(id) == text)
  }

  /** Adding the same message to both keeps them the same; its id text was not in use. */
  lemma SameMessagesAdd(c: Codec, m: Collection, messages: map<string, Message>, id: ObjectId, e: MessageEntity)
    requires Lawful(c) && SameMessages(c, m, messages) && id !in m
    ensures c.formatId(id) !in messages
    ensures SameMessages(c, m[id := e], messages[c.formatId(id) := ToMessage(c, id, e)])
  {
    forall x | x in m ensures c.formatId(x) != c.formatId(id) {
      assert c.parseId(c.formatId(x)) == Some(x) && c.parseId(c.formatId(id)) == Some(id);
    }
    forall text | text in messages ensures exists x :: x in m[id := e] && c.formatId(x) == text {
      var x :| x in m && c.formatId(x) == text;
      assert x in m[id := e];
    }
    assert id in m[id := e];
  }

  /** What a committed `Execute` does to both collections is the pipeline's step of creating a message. */
  lemma CreateFollows(cfg: P.Config, s: P.System, m: Collection, command: CreateMessageCommand, now: int, id: ObjectId,
                      rowId: RowId, eventId: string)
    requires Lawful(cfg.codec) && SameMessages(cfg.codec, m, s.messages) && id !in m
    requires rowId !in s.issuedIds && now <= s.clock
    ensures var e := EntityOf(command, now);
      var message := ToMessage(cfg.codec, id, e);
      var a := P.CreateMessage(message, rowId, eventId, command.correlationId);
      && P.StoreEnabled(s, a)
      && P.ApplyStore(cfg, s, a).rows == s.rows[rowId := RowOf(cfg.codec, message, eventId, command.correlationId)]
      && SameMessages(cfg.codec, m[id := e], P.ApplyStore(cfg, s, a).messages)
  {
    SameMessagesAdd(cfg.codec, m, s.messages, id, EntityOf(command, now));
  }
}
