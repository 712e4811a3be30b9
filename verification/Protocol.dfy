/** The pipeline as a state machine: the message store and outbox table, any number of publisher
    instances, the main and dead-letter topics, the search indexer, the search index, and the two
    redrive commands. Each action is one atomic step; everything may interleave. */
module Protocol {
  import opened Wrappers
  import opened Codecs
  import opened Events
  import opened OutboxRows
  import opened RetryDelays
  import opened Topics

  const PARTITIONS: nat := 3
  const PUBLISHED_TTL_MS := 7 * 24 * 60 * 60 * 1_000

  datatype Config = Config(codec: Codec, batchSize: nat, maxAttempts: nat, lockTimeoutMs: int)

  ghost predicate ValidConfig(cfg: Config) {
    Lawful(cfg.codec) && cfg.batchSize >= 1 && cfg.maxAttempts >= 1 && cfg.lockTimeoutMs > 0
  }

  /** A publisher's snapshot of a row it claimed; `claim` numbers the claims of the whole run. */
  datatype Entry = Entry(id: RowId, event: MessageCreatedEvent, key: string, attempts: nat, claim: nat)

  /** Where a publisher is with the entry it is working on. */
  datatype Stage = Sending | Marking | Failing

  /** One execution of `runOnce`. An instance that is between runs has no worker. `since` is the time
      at which the stage began: the instance reads the clock no earlier to date what it does next. */
  datatype Worker =
    | Claiming(now: int, batch: seq<Entry>)
    | Processing(batch: seq<Entry>, next: nat, stage: Stage, since: int)

  /** Claims of a row since it was created or last redriven; how many of them took over an
      expired lock. */
  datatype Tally = Tally(claims: nat, takeovers: nat)

  type Index = map<string, StoredDocument>

  /** Everything downstream of the outbox. */
  datatype Streams = Streams(main: Topic, dlq: Topic, index: Index)

  /** What no action reads: the row of each claim, the claim of each send, the message that each row was
      created for, and the tally of each row. */
  datatype History = History(
    claims: seq<RowId>, sends: seq<nat>, announced: map<RowId, string>, tallies: map<RowId, Tally>)

  datatype System = System(
    clock: int,
    messages: map<string, Message>,
    rows: Table,
    issuedIds: set<RowId>,
    workers: map<InstanceId, Worker>,
    streams: Streams,
    history: History)

  /** A database update may succeed, or report an error before or after taking effect. */
  datatype Fault = NoFault | ErrorBefore | ErrorAfter

  /** What handling one record did: upserted its document, appended it to the dead-letter topic,
      and got past it. A crash or an error can stop handling after any effect. */
  datatype Handling = Handling(indexed: bool, deadLettered: bool, completed: bool)

  /** The same for one dead-letter record: sent to the main topic, offset committed, got past it. */
  datatype Redriving = Redriving(sent: bool, committed: bool, completed: bool)

  /** Steps of the API, the clock, the operator's outbox redrive and the database's own expiry. */
  datatype StoreAction =
    | CreateMessage(message: Message, rowId: RowId, eventId: string, correlationId: string)
    | Tick(ms: nat)
    | RedriveRows(ids: set<RowId>, now: int)
    | ExpireRow(id: RowId)

  /** Steps of one publisher instance. `publishedAt` and `failedAt` are readings of the clock, taken
      before the update they go into. `LeaveRun` is the end of a run, an exception that escapes it, or
      a crash. */
  datatype PublisherAction =
    | StartRun
    | ClaimRow(id: RowId)
    | FinishClaiming
    | Send(partition: nat, appended: bool, acknowledged: bool)
    | Mark(fault: Fault, publishedAt: int)
    | RecordFailure(fault: Fault, failedAt: int, delayMs: int, error: string)
    | LeaveRun

  /** Steps of the two topics' consumers, and of producers outside the program. */
  datatype StreamAction =
    | ForeignRecord(partition: nat, foreign: Record)
    | Consume(partition: nat, dlqPartition: nat, handling: Handling)
    | CommitMain(partition: nat, offset: nat)
    | RestartConsumer(partition: nat)
    | RedriveRecord(partition: nat, mainPartition: nat, redriving: Redriving)
    | RestartRedrive(partition: nat)

  datatype Action =
    | Store(store: StoreAction)
    | Publisher(w: InstanceId, publisher: PublisherAction)
    | Stream(stream: StreamAction)

  ghost predicate Init(s: System) {
    && s.messages == map[] && s.rows == map[] && s.issuedIds == {} && s.workers == map[]
    && s.streams == Streams(EmptyTopic(PARTITIONS), EmptyTopic(PARTITIONS), map[])
    && s.history == History([], [], map[], map[])
  }

  // ---- Store steps ----

  predicate StoreEnabled(s: System, a: StoreAction) {
    match a
    case CreateMessage(m, rowId, _, _) =>
      m.id !in s.messages && rowId !in s.issuedIds && m.timestamp <= s.clock
    case Tick(_) => true
    case RedriveRows(_, now) => now <= s.clock
    case ExpireRow(id) =>
      && id in s.rows && s.rows[id].status == Published && s.rows[id].publishedAt.Some?
      && s.rows[id].publishedAt.value + PUBLISHED_TTL_MS <= s.clock
  }

  function TalliesReset(tallies: map<RowId, Tally>, rows: Table, ids: set<RowId>): map<RowId, Tally> {
    map id | id in tallies ::
      if id in ids && id in rows && rows[id].status == Failed then Tally(0, 0) else tallies[id]
  }

  function ApplyStore(cfg: Config, s: System, a: StoreAction): System
    requires StoreEnabled(s, a)
  {
    match a
    case CreateMessage(m, rowId, eventId, correlationId) =>
      var event := BuildEvent(cfg.codec, m, eventId, correlationId, m.timestamp);
      s.(messages := s.messages[m.id := m],
         rows := s.rows[rowId := NewRow(event, m.conversationId, m.timestamp)],
         issuedIds := s.issuedIds + {rowId},
         history := s.history.(announced := s.history.announced[rowId := m.id],
                               tallies := s.history.tallies[rowId := Tally(0, 0)]))
    case Tick(ms) => s.(clock := s.clock + ms)
    case RedriveRows(ids, now) =>
      s.(rows := Redriven(s.rows, ids, now),
         history := s.history.(tallies := TalliesReset(s.history.tallies, s.rows, ids)))
    case ExpireRow(id) => s.(rows := s.rows - {id})
  }

  // ---- Publisher steps ----

  /** The worker turns to `stage` of the same entry. */
  function AtStage(k: Worker, stage: Stage, clock: int): Worker
    requires k.Processing?
  {
    k.(stage := stage, since := clock)
  }

  /** The worker turns to its next entry. */
  function AtNext(k: Worker, clock: int): Worker
    requires k.Processing?
  {
    k.(next := k.next + 1, stage := Sending, since := clock)
  }

  predicate IsClaiming(s: System, w: InstanceId) {
    w in s.workers && s.workers[w].Claiming?
  }

  /** Instance `w` has an entry in hand and is at `stage` with it. */
  predicate IsAt(s: System, w: InstanceId, stage: Stage) {
    && w in s.workers && s.workers[w].Processing?
    && s.workers[w].next < |s.workers[w].batch| && s.workers[w].stage == stage
  }

  function Current(k: Worker): Entry
    requires k.Processing? && k.next < |k.batch|
  {
    k.batch[k.next]
  }

  ghost predicate PublisherEnabled(cfg: Config, s: System, w: InstanceId, a: PublisherAction) {
    match a
    case StartRun => w !in s.workers
    case ClaimRow(id) =>
      && IsClaiming(s, w) && |s.workers[w].batch| < cfg.batchSize
      && IsNextClaim(s.rows, s.workers[w].now, cfg.lockTimeoutMs, id)
    case FinishClaiming =>
      && IsClaiming(s, w)
      && (|s.workers[w].batch| >= cfg.batchSize
          || ClaimableIds(s.rows, s.workers[w].now, cfg.lockTimeoutMs) == {})
    case Send(p, appended, acknowledged) =>
      IsAt(s, w, Sending) && p < |s.streams.main| && (acknowledged ==> appended)
    case Mark(_, publishedAt) =>
      IsAt(s, w, Marking) && s.workers[w].since <= publishedAt <= s.clock
    case RecordFailure(_, failedAt, delayMs, _) =>
      && IsAt(s, w, Failing) && s.workers[w].since <= failedAt <= s.clock
      && PossibleRetryDelay(Current(s.workers[w]).attempts + 1, delayMs)
    case LeaveRun => w in s.workers
  }

  function AfterClaim(t: Tally, takeover: bool): Tally {
    Tally(t.claims + 1, if takeover then t.takeovers + 1 else t.takeovers)
  }

  function TallyOf(s: System, id: RowId): Tally {
    if id in s.history.tallies then s.history.tallies[id] else Tally(0, 0)
  }

  function ApplyClaim(s: System, w: InstanceId, id: RowId): System
    requires id in s.rows && IsClaiming(s, w)
  {
    var k := s.workers[w];
    var row := s.rows[id];
    var entry := Entry(id, row.event, row.key, row.attempts, |s.history.claims|);
    s.(rows := s.rows[id := Locked(row, w, k.now)],
       workers := s.workers[w := Claiming(k.now, k.batch + [entry])],
       history := s.history.(claims := s.history.claims + [id],
                             tallies := s.history.tallies[id := AfterClaim(TallyOf(s, id), row.status == Publishing)]))
  }

  /** The record a publisher sends for an event. */
  function EventRecord(c: Codec, key: string, event: MessageCreatedEvent): Record {
    Record(Some(c.encodeUtf8(key)), Some(WireValue(c, event)))
  }

  function ApplySend(cfg: Config, s: System, w: InstanceId, p: nat, appended: bool, acknowledged: bool): System
    requires IsAt(s, w, Sending) && p < |s.streams.main|
  {
    var k := s.workers[w];
    var e := Current(k);
    s.(streams := if appended then s.streams.(main := Append(s.streams.main, p, EventRecord(cfg.codec, e.key, e.event)))
                  else s.streams,
       history := if appended then s.history.(sends := s.history.sends + [e.claim]) else s.history,
       workers := s.workers[w := AtStage(k, if acknowledged then Marking else Failing, s.clock)])
  }

  function ApplyMark(s: System, w: InstanceId, fault: Fault, publishedAt: int): System
    requires IsAt(s, w, Marking)
  {
    var k := s.workers[w];
    s.(rows := if fault == ErrorBefore then s.rows else MarkedPublished(s.rows, Current(k).id, w, publishedAt),
       workers := s.workers[w := if fault == NoFault then AtNext(k, s.clock) else AtStage(k, Failing, s.clock)])
  }

  function ApplyFailure(cfg: Config, s: System, w: InstanceId, fault: Fault, failedAt: int, delayMs: int, error: string)
    : System
    requires IsAt(s, w, Failing)
  {
    var k := s.workers[w];
    var e := Current(k);
    s.(rows := if fault == ErrorBefore then s.rows
               else FailureRecorded(s.rows, e.id, w, e.attempts, cfg.maxAttempts, failedAt, delayMs, error),
       workers := if fault == NoFault then s.workers[w := AtNext(k, s.clock)] else s.workers - {w})
  }

  ghost function ApplyPublisher(cfg: Config, s: System, w: InstanceId, a: PublisherAction): System
    requires PublisherEnabled(cfg, s, w, a)
  {
    match a
    case StartRun => s.(workers := s.workers[w := Claiming(s.clock, [])])
    case ClaimRow(id) => ApplyClaim(s, w, id)
    case FinishClaiming => s.(workers := s.workers[w := Processing(s.workers[w].batch, 0, Sending, s.clock)])
    case Send(p, appended, acknowledged) => ApplySend(cfg, s, w, p, appended, acknowledged)
    case Mark(fault, publishedAt) => ApplyMark(s, w, fault, publishedAt)
    case RecordFailure(fault, failedAt, delayMs, error) => ApplyFailure(cfg, s, w, fault, failedAt, delayMs, error)
    case LeaveRun => s.(workers := s.workers - {w})
  }

  // ---- Stream steps ----

  /** What the indexer may do with a record, by how the record parses. */
  predicate MayHandle(c: Codec, r: Record, h: Handling) {
    match ParseMessageCreatedEvent(c, r.value)
    case Created(e) => h.completed ==> h.indexed || h.deadLettered
    case UnknownVersion(_, _) => !h.indexed && !h.deadLettered
    case Malformed(_) => !h.indexed && (h.completed ==> h.deadLettered)
  }

  /** The dead-letter copy: the same value, and the key decoded and encoded again. */
  function DeadLetter(c: Codec, r: Record): Record {
    Record(if r.key.None? then None else Some(c.encodeUtf8(c.decodeUtf8(r.key.value))), r.value)
  }

  /** The index after the document of record `r` is upserted; only events have one. */
  function Indexed(c: Codec, index: Index, r: Record): Index {
    match ParseMessageCreatedEvent(c, r.value)
    case Created(e) =>
      if c.parseDate(e.payload.timestamp).None? then index
      else index[e.payload.id := ProjectDocument(c, ProjectEvent(c, e))]
    case _ => index
  }

  predicate StreamEnabled(cfg: Config, x: Streams, a: StreamAction) {
    match a
    case ForeignRecord(p, r) => p < |x.main| && !ParseMessageCreatedEvent(cfg.codec, r.value).Created?
    case Consume(p, q, h) =>
      && p < |x.main| && x.main[p].position < |x.main[p].log| && q < |x.dlq|
      && MayHandle(cfg.codec, x.main[p].log[x.main[p].position], h)
    case CommitMain(p, offset) =>
      p < |x.main| && x.main[p].committed <= offset <= x.main[p].position
    case RestartConsumer(p) => p < |x.main|
    case RedriveRecord(p, q, d) =>
      && p < |x.dlq| && x.dlq[p].position < |x.dlq[p].log| && q < |x.main|
      && (d.committed ==> d.sent) && (d.completed ==> d.committed)
    case RestartRedrive(p) => p < |x.dlq|
  }

  function ApplyConsume(cfg: Config, x: Streams, p: nat, q: nat, h: Handling): Streams
    requires p < |x.main| && x.main[p].position < |x.main[p].log| && q < |x.dlq|
  {
    var r := x.main[p].log[x.main[p].position];
    x.(index := if h.indexed then Indexed(cfg.codec, x.index, r) else x.index,
       dlq := if h.deadLettered then Append(x.dlq, q, DeadLetter(cfg.codec, r)) else x.dlq,
       main := if h.completed then Advance(x.main, p) else x.main)
  }

  function ApplyRedrive(x: Streams, p: nat, q: nat, d: Redriving): Streams
    requires p < |x.dlq| && x.dlq[p].position < |x.dlq[p].log| && q < |x.main|
  {
    var at := x.dlq[p].position;
    var dlq := if d.committed then Commit(x.dlq, p, at + 1) else x.dlq;
    x.(main := if d.sent then Append(x.main, q, x.dlq[p].log[at]) else x.main,
       dlq := if d.completed then Advance(dlq, p) else dlq)
  }

  function ApplyStream(cfg: Config, x: Streams, a: StreamAction): Streams
    requires StreamEnabled(cfg, x, a)
  {
    match a
    case ForeignRecord(p, r) => x.(main := Append(x.main, p, r))
    case Consume(p, q, h) => ApplyConsume(cfg, x, p, q, h)
    case CommitMain(p, offset) => x.(main := Commit(x.main, p, offset))
    case RestartConsumer(p) => x.(main := Rewind(x.main, p))
    case RedriveRecord(p, q, d) => ApplyRedrive(x, p, q, d)
    case RestartRedrive(p) => x.(dlq := Rewind(x.dlq, p))
  }

  // ---- Runs ----

  ghost predicate Enabled(cfg: Config, s: System, a: Action) {
    match a
    case Store(b) => StoreEnabled(s, b)
    case Publisher(w, b) => PublisherEnabled(cfg, s, w, b)
    case Stream(b) => StreamEnabled(cfg, s.streams, b)
  }

  ghost function Apply(cfg: Config, s: System, a: Action): System
    requires Enabled(cfg, s, a)
  {
    match a
    case Store(b) => ApplyStore(cfg, s, b)
    case Publisher(w, b) => ApplyPublisher(cfg, s, w, b)
    case Stream(b) => s.(streams := ApplyStream(cfg, s.streams, b))
  }

  /** `t` is reached from `s` by doing `actions` in order, each enabled when its turn comes. */
  ghost predicate Reaches(cfg: Config, s: System, actions: seq<Action>, t: System)
    decreases |actions|
  {
    if actions == [] then s == t
    else Enabled(cfg, s, actions[0]) && Reaches(cfg, Apply(cfg, s, actions[0]), actions[1..], t)
  }

  lemma {:induction false} ReachesOneMore(cfg: Config, s: System, actions: seq<Action>, t: System, a: Action)
    requires Reaches(cfg, s, actions, t) && Enabled(cfg, t, a)
    ensures Reaches(cfg, s, actions + [a], Apply(cfg, t, a))
    decreases |actions|
  {
    if actions == [] {
      assert Reaches(cfg, Apply(cfg, t, a), [], Apply(cfg, t, a));
      assert (actions + [a])[1..] == [];
    } else {
      ReachesOneMore(cfg, Apply(cfg, s, actions[0]), actions[1..], t, a);
      assert (actions + [a])[1..] == actions[1..] + [a];
    }
  }

  ghost predicate CanReach(cfg: Config, s: System, t: System) {
    exists actions :: Reaches(cfg, s, actions, t)
  }

  lemma Step(cfg: Config, s: System, t: System, a: Action) returns (u: System)
    requires CanReach(cfg, s, t) && Enabled(cfg, t, a)
    ensures u == Apply(cfg, t, a) && CanReach(cfg, s, u)
  {
    var actions :| Reaches(cfg, s, actions, t);
    ReachesOneMore(cfg, s, actions, t, a);
    u := Apply(cfg, t, a);
  }

  lemma {:induction false} ReachesOn(cfg: Config, s: System, actions: seq<Action>, t: System, more: seq<Action>,
                                     u: System)
    requires Reaches(cfg, s, actions, t) && Reaches(cfg, t, more, u)
    ensures Reaches(cfg, s, actions + more, u)
    decreases |actions|
  {
    if actions == [] {
      assert actions + more == more;
    } else {
      ReachesOn(cfg, Apply(cfg, s, actions[0]), actions[1..], t, more, u);
      assert (actions + more)[1..] == actions[1..] + more;
    }
  }

  lemma CanReachOn(cfg: Config, s: System, t: System, u: System)
    requires CanReach(cfg, s, t) && CanReach(cfg, t, u)
    ensures CanReach(cfg, s, u)
  {
    var actions :| Reaches(cfg, s, actions, t);
    var more :| Reaches(cfg, t, more, u);
    ReachesOn(cfg, s, actions, t, more, u);
  }
}
