/** No dead ends: from every state the pipeline can get into, it can still get to one where nothing is
    left to do, and there the index is exactly the message store. */
module Recovery {
  import opened Codecs
  import opened Events
  import opened Ordering
  import opened OutboxRows
  import opened OutboxRepository
  import opened Topics
  import opened Protocol
  import opened Delivery
  import opened MalformedRecords

  const HELPER: InstanceId := "helper"

  // ---- What holds of every state that is reached ----

  lemma {:induction false} PartitionsStay(cfg: Config, s: System, actions: seq<Action>, t: System)
    requires Reaches(cfg, s, actions, t)
    ensures |t.streams.main| == |s.streams.main| && |t.streams.dlq| == |s.streams.dlq|
    decreases |actions|
  {
    if actions != [] { PartitionsStay(cfg, Apply(cfg, s, actions[0]), actions[1..], t); }
  }

  /** State `s` is one of some run. */
  ghost predicate Reachable(cfg: Config, s: System) {
    exists start :: Init(start) && CanReach(cfg, start, s)
  }

  /** From such a state, `t` is reached without creating messages. */
  ghost predicate Reached(cfg: Config, s: System, t: System) {
    ValidConfig(cfg) && Reachable(cfg, s) && CanReach(cfg, s, t) && t.messages == s.messages
  }

  lemma ReachedIsSound(cfg: Config, s: System, t: System)
    requires Reached(cfg, s, t)
    ensures AllWellShaped(t.rows, cfg.maxAttempts) && ValidTopic(t.streams.main) && ValidTopic(t.streams.dlq)
    ensures |t.streams.main| == |t.streams.dlq| == PARTITIONS
  {
    var start :| Init(start) && CanReach(cfg, start, s);
    CanReachOn(cfg, start, s, t);
    var actions :| Reaches(cfg, start, actions, t);
    InvInit(cfg, start);
    InvRun(cfg, start, actions, t);
    PartitionsStay(cfg, start, actions, t);
  }

  // ---- Every publisher leaves its run ----

  lemma {:induction false} AllLeave(cfg: Config, s: System, t: System) returns (u: System)
    requires Reached(cfg, s, t)
    ensures Reached(cfg, s, u) && u.workers == map[] && u.streams == t.streams
    decreases |t.workers|
  {
    u := t;
    if t.workers != map[] {
      var w :| w in t.workers;
      u := Step(cfg, s, t, Publisher(w, LeaveRun));
      assert t.workers.Keys == u.workers.Keys + {w};
      u := AllLeave(cfg, s, u);
    }
  }

  // ---- Every row is published ----

  function Unpublished(rows: Table): set<RowId> {
    set id | id in rows && rows[id].status != Published
  }

  /** What publishing leaves alone. */
  predicate SameBut(t: System, u: System) {
    Unpublished(u.rows) == Unpublished(t.rows) && u.workers == t.workers && u.streams == t.streams
  }

  /** An unpublished row becomes claimable: by a redrive if it has failed, else by waiting. */
  lemma MakeDue(cfg: Config, s: System, t: System, id: RowId) returns (u: System)
    requires Reached(cfg, s, t) && id in Unpublished(t.rows)
    ensures Reached(cfg, s, u) && SameBut(t, u) && id in ClaimableIds(u.rows, u.clock, cfg.lockTimeoutMs)
  {
    ReachedIsSound(cfg, s, t);
    var r := t.rows[id];
    assert WellShaped(r, cfg.maxAttempts);
    if r.status == Failed {
      u := Step(cfg, s, t, Store(RedriveRows({id}, t.clock)));
    } else {
      var due := if r.status == Pending then r.nextAttemptAt else r.lockedAt.value + cfg.lockTimeoutMs;
      u := Step(cfg, s, t, Store(Tick(if due > t.clock then due - t.clock else 0)));
    }
  }

  /** The helper is claiming, and holds the lock of the first row of its batch. */
  predicate HoldsFirst(t: System) {
    && IsClaiming(t, HELPER) && t.workers.Keys == {HELPER}
    && t.workers[HELPER].batch != [] && Owns(t.rows, t.workers[HELPER].batch[0].id, HELPER)
  }

  lemma ClaimNextRow(cfg: Config, s: System, t: System) returns (u: System)
    requires Reached(cfg, s, t) && IsClaiming(t, HELPER) && t.workers.Keys == {HELPER}
    requires ClaimableIds(t.rows, t.workers[HELPER].now, cfg.lockTimeoutMs) != {}
    requires |t.workers[HELPER].batch| < cfg.batchSize
    requires t.workers[HELPER].batch == [] || HoldsFirst(t)
    ensures Reached(cfg, s, u) && HoldsFirst(u) && Unpublished(u.rows) == Unpublished(t.rows)
    ensures |u.workers[HELPER].batch| == |t.workers[HELPER].batch| + 1 && u.streams == t.streams
  {
    var id := First(ClaimableIds(t.rows, t.workers[HELPER].now, cfg.lockTimeoutMs), ById());
    u := Step(cfg, s, t, Publisher(HELPER, ClaimRow(id)));
  }

  /** The helper fills its batch, as far as there are rows, and begins to send. */
  lemma {:induction false} FillBatch(cfg: Config, s: System, t: System) returns (u: System)
    requires Reached(cfg, s, t) && HoldsFirst(t) && |t.workers[HELPER].batch| <= cfg.batchSize
    ensures Reached(cfg, s, u) && Unpublished(u.rows) == Unpublished(t.rows) && u.workers.Keys == {HELPER}
    ensures IsAt(u, HELPER, Sending) && Owns(u.rows, Current(u.workers[HELPER]).id, HELPER) && u.streams == t.streams
    decreases cfg.batchSize - |t.workers[HELPER].batch|
  {
    if |t.workers[HELPER].batch| == cfg.batchSize
       || ClaimableIds(t.rows, t.workers[HELPER].now, cfg.lockTimeoutMs) == {}
    {
      u := Step(cfg, s, t, Publisher(HELPER, FinishClaiming));
    } else {
      u := ClaimNextRow(cfg, s, t);
      u := FillBatch(cfg, s, u);
    }
  }

  /** Nothing malformed is put into either topic. */
  ghost predicate KeepsClean(c: Codec, t: System, u: System) {
    Clean(c, t.streams) ==> Clean(c, u.streams)
  }

  lemma SentIsWellFormed(cfg: Config, s: System, t: System, w: InstanceId)
    requires Reached(cfg, s, t) && IsAt(t, w, Sending)
    ensures var e := Current(t.workers[w]); WellFormed(cfg.codec)(EventRecord(cfg.codec, e.key, e.event))
  {
    var start :| Init(start) && CanReach(cfg, start, s);
    CanReachOn(cfg, start, s, t);
    var actions :| Reaches(cfg, start, actions, t);
    InvInit(cfg, start);
    InvRun(cfg, start, actions, t);
    var e := Current(t.workers[w]);
    assert EntryOk(cfg, t.messages, t.issuedIds, t.rows, e);
    WireIsGenuine(cfg.codec, t.messages, e.key, e.event);
  }

  lemma SendOne(cfg: Config, s: System, t: System) returns (u: System)
    requires Reached(cfg, s, t) && IsAt(t, HELPER, Sending)
    ensures Reached(cfg, s, u) && u.rows == t.rows && u.workers.Keys == t.workers.Keys
    ensures IsAt(u, HELPER, Marking) && u.workers[HELPER].since == u.clock
    ensures Current(u.workers[HELPER]) == Current(t.workers[HELPER])
    ensures KeepsClean(cfg.codec, t, u)
  {
    ReachedIsSound(cfg, s, t);
    u := Step(cfg, s, t, Publisher(HELPER, Send(0, true, true)));
    var e := Current(t.workers[HELPER]);
    SentIsWellFormed(cfg, s, t, HELPER);
    AllLoggedAppend(t.streams.main, 0, EventRecord(cfg.codec, e.key, e.event), WellFormed(cfg.codec));
  }

  /** The helper sends and marks the row it has in hand, and leaves. */
  lemma SendAndMark(cfg: Config, s: System, t: System) returns (u: System)
    requires Reached(cfg, s, t) && t.workers.Keys == {HELPER}
    requires IsAt(t, HELPER, Sending) && Owns(t.rows, Current(t.workers[HELPER]).id, HELPER)
    ensures Reached(cfg, s, u) && u.workers == map[]
    ensures Unpublished(u.rows) == Unpublished(t.rows) - {Current(t.workers[HELPER]).id}
    ensures KeepsClean(cfg.codec, t, u)
  {
    var sent := SendOne(cfg, s, t);
    var marked := Step(cfg, s, sent, Publisher(HELPER, Mark(NoFault, sent.clock)));
    u := Step(cfg, s, marked, Publisher(HELPER, LeaveRun));
  }

  lemma PublishOne(cfg: Config, s: System, t: System, id: RowId) returns (u: System)
    requires Reached(cfg, s, t) && t.workers == map[] && id in Unpublished(t.rows)
    ensures Reached(cfg, s, u) && u.workers == map[]
    ensures Unpublished(u.rows) < Unpublished(t.rows) && KeepsClean(cfg.codec, t, u)
  {
    var due := MakeDue(cfg, s, t, id);
    var started := Step(cfg, s, due, Publisher(HELPER, StartRun));
    var first := ClaimNextRow(cfg, s, started);
    var sending := FillBatch(cfg, s, first);
    u := SendAndMark(cfg, s, sending);
  }

  lemma {:induction false} PublishAll(cfg: Config, s: System, t: System) returns (u: System)
    requires Reached(cfg, s, t) && t.workers == map[]
    ensures Reached(cfg, s, u) && Unpublished(u.rows) == {} && KeepsClean(cfg.codec, t, u)
    decreases Unpublished(t.rows)
  {
    u := t;
    if Unpublished(t.rows) != {} {
      var id :| id in Unpublished(t.rows);
      u := PublishOne(cfg, s, t, id);
      u := PublishAll(cfg, s, u);
    }
  }

  // ---- The dead-letter topic is redriven, and the main topic consumed, to their ends ----

  /** Partition `p` is at its end in `u`; the logs are those of `t`, and so are the other partitions. */
  predicate BroughtToEnd(t: Topic, u: Topic, p: nat) {
    && p < |t| == |u| && u[p].log == t[p].log && AtEnd(u[p])
    && forall q :: 0 <= q < |t| && q != p ==> u[q] == t[q]
  }

  lemma RedriveNext(cfg: Config, s: System, t: System, p: nat) returns (u: System)
    requires Reached(cfg, s, t) && p < |t.streams.dlq| && t.streams.dlq[p].position < |t.streams.dlq[p].log|
    ensures Reached(cfg, s, u) && u.rows == t.rows
    ensures var at := t.streams.dlq[p].position;
      u.streams.dlq == t.streams.dlq[p := Partition(t.streams.dlq[p].log, at + 1, at + 1)]
    ensures KeepsClean(cfg.codec, t, u)
  {
    ReachedIsSound(cfg, s, t);
    u := Step(cfg, s, t, Stream(RedriveRecord(p, 0, Redriving(true, true, true))));
    AllLoggedAppend(t.streams.main, 0, t.streams.dlq[p].log[t.streams.dlq[p].position], WellFormed(cfg.codec));
  }

  lemma {:induction false} RedriveToEnd(cfg: Config, s: System, t: System, p: nat) returns (u: System)
    requires Reached(cfg, s, t) && p < |t.streams.dlq| && t.streams.dlq[p].position == t.streams.dlq[p].committed
    ensures Reached(cfg, s, u) && u.rows == t.rows && BroughtToEnd(t.streams.dlq, u.streams.dlq, p)
    ensures KeepsClean(cfg.codec, t, u)
    decreases |t.streams.dlq[p].log| - t.streams.dlq[p].position
  {
    ReachedIsSound(cfg, s, t);
    u := t;
    if t.streams.dlq[p].position < |t.streams.dlq[p].log| {
      u := RedriveNext(cfg, s, t, p);
      u := RedriveToEnd(cfg, s, u, p);
    }
  }

  lemma {:induction false} RedriveAll(cfg: Config, s: System, t: System, n: nat) returns (u: System)
    requires Reached(cfg, s, t) && n <= |t.streams.dlq|
    ensures Reached(cfg, s, u) && u.rows == t.rows && |u.streams.dlq| == |t.streams.dlq|
    ensures KeepsClean(cfg.codec, t, u)
    ensures forall p :: 0 <= p < n ==> AtEnd(u.streams.dlq[p])
  {
    u := t;
    if n > 0 {
      u := RedriveAll(cfg, s, t, n - 1);
      u := Step(cfg, s, u, Stream(RestartRedrive(n - 1)));
      u := RedriveToEnd(cfg, s, u, n - 1);
    }
  }

  /** Handling that succeeds: an event is indexed, and a malformed record dead-lettered. */
  function Succeeding(c: Codec, r: Record): Handling {
    match ParseMessageCreatedEvent(c, r.value)
    case Created(_) => Handling(true, false, true)
    case UnknownVersion(_, _) => Handling(false, false, true)
    case Malformed(_) => Handling(false, true, true)
  }

  /** On the way nothing is done to the rows, and nothing but malformed records is dead-lettered. */
  ghost predicate OnlyConsumed(c: Codec, t: System, u: System) {
    && u.rows == t.rows && (NoEventWaits(c, t.streams.dlq) ==> NoEventWaits(c, u.streams.dlq))
    && (Clean(c, t.streams) ==> Clean(c, u.streams) && u.streams.dlq == t.streams.dlq)
  }

  lemma SuccessDeadLettersNoEvent(cfg: Config, x: Streams, p: nat)
    requires p < |x.main| && x.main[p].position < |x.main[p].log| && |x.dlq| > 0
    ensures var r := x.main[p].log[x.main[p].position];
      var y := ApplyConsume(cfg, x, p, 0, Succeeding(cfg.codec, r));
      && y.main == Advance(x.main, p)
      && (NoEventWaits(cfg.codec, x.dlq) ==> NoEventWaits(cfg.codec, y.dlq))
      && (Clean(cfg.codec, x) ==> Clean(cfg.codec, y) && y.dlq == x.dlq)
  {
    var r := x.main[p].log[x.main[p].position];
    if Clean(cfg.codec, x) { assert WellFormed(cfg.codec)(r); }
  }

  lemma ConsumeNext(cfg: Config, s: System, t: System, p: nat) returns (u: System)
    requires Reached(cfg, s, t) && p < |t.streams.main| && t.streams.main[p].position < |t.streams.main[p].log|
    ensures Reached(cfg, s, u) && OnlyConsumed(cfg.codec, t, u)
    ensures u.streams.main == Advance(t.streams.main, p)
  {
    ReachedIsSound(cfg, s, t);
    var r := t.streams.main[p].log[t.streams.main[p].position];
    u := Step(cfg, s, t, Stream(Consume(p, 0, Succeeding(cfg.codec, r))));
    SuccessDeadLettersNoEvent(cfg, t.streams, p);
  }

  lemma {:induction false} ConsumeToEnd(cfg: Config, s: System, t: System, p: nat) returns (u: System)
    requires Reached(cfg, s, t) && p < |t.streams.main|
    requires t.streams.main[p].committed <= t.streams.main[p].position <= |t.streams.main[p].log|
    ensures Reached(cfg, s, u) && OnlyConsumed(cfg.codec, t, u) && BroughtToEnd(t.streams.main, u.streams.main, p)
    decreases |t.streams.main[p].log| - t.streams.main[p].position
  {
    if t.streams.main[p].position < |t.streams.main[p].log| {
      u := ConsumeNext(cfg, s, t, p);
      u := ConsumeToEnd(cfg, s, u, p);
    } else {
      u := Step(cfg, s, t, Stream(CommitMain(p, t.streams.main[p].position)));
    }
  }

  lemma {:induction false} ConsumeAll(cfg: Config, s: System, t: System, n: nat) returns (u: System)
    requires Reached(cfg, s, t) && n <= |t.streams.main|
    ensures Reached(cfg, s, u) && OnlyConsumed(cfg.codec, t, u) && |u.streams.main| == |t.streams.main|
    ensures forall p :: 0 <= p < n ==> AtEnd(u.streams.main[p])
  {
    u := t;
    if n > 0 {
      u := ConsumeAll(cfg, s, t, n - 1);
      u := Step(cfg, s, u, Stream(RestartConsumer(n - 1)));
      ReachedIsSound(cfg, s, u);
      u := ConsumeToEnd(cfg, s, u, n - 1);
    }
  }

  /** With all of that done, nothing is left to do. */
  lemma DoneIsQuiescent(cfg: Config, s: System, t: System)
    requires Reached(cfg, s, t) && Unpublished(t.rows) == {} && NoEventWaits(cfg.codec, t.streams.dlq)
    requires forall p :: 0 <= p < |t.streams.main| ==> AtEnd(t.streams.main[p])
    ensures Quiescent(cfg.codec, t)
    ensures t.streams.index == map id | id in s.messages :: DocumentOf(cfg.codec, s.messages[id])
  {
    forall r | r in t.rows ensures t.rows[r].status == Published { assert r !in Unpublished(t.rows); }
    var start :| Init(start) && CanReach(cfg, start, s);
    CanReachOn(cfg, start, s, t);
    var actions :| Reaches(cfg, start, actions, t);
    IndexConverges(cfg, start, actions, t);
  }

  lemma StartsReached(cfg: Config, start: System, s: System)
    requires ValidConfig(cfg) && Init(start) && CanReach(cfg, start, s)
    ensures Reached(cfg, s, s)
  {
    assert Reaches(cfg, s, [], s);
  }

  /** From every state of every run, whatever has crashed, failed or piled up, the pipeline can still
      reach a state with nothing left to do, whose index is exactly its message store. If no malformed
      record has come in, both topics are then consumed to their ends. */
  lemma CanAlwaysConverge(cfg: Config, start: System, s: System) returns (t: System)
    requires ValidConfig(cfg) && Init(start) && CanReach(cfg, start, s)
    ensures CanReach(cfg, s, t) && Quiescent(cfg.codec, t) && t.messages == s.messages
    ensures t.streams.index == map id | id in s.messages :: DocumentOf(cfg.codec, s.messages[id])
    ensures AllLogged(s.streams.main, WellFormed(cfg.codec)) ==> FullyConsumed(t.streams)
  {
    StartsReached(cfg, start, s);
    RoundOfReachable(cfg, start, s);
    t := AllLeave(cfg, s, s);
    t := PublishAll(cfg, s, t);
    t := RedriveAll(cfg, s, t, |t.streams.dlq|);
    t := ConsumeAll(cfg, s, t, |t.streams.main|);
    DoneIsQuiescent(cfg, s, t);
  }

  /** The state is finished: every row published, both topics consumed to their ends, and the index
      exactly the message store. */
  predicate Finished(c: Codec, t: System) {
    && (forall r :: r in t.rows ==> t.rows[r].status == Published) && FullyConsumed(t.streams)
    && t.streams.index == map id | id in t.messages :: DocumentOf(c, t.messages[id])
  }

  /** Exactly when both topics can still be consumed to their ends, and everything else be finished with
      them: if and only if no log of the main topic has a malformed record. */
  lemma FullConsumptionExact(cfg: Config, start: System, s: System)
    requires ValidConfig(cfg) && Init(start) && CanReach(cfg, start, s)
    ensures (exists t :: CanReach(cfg, s, t) && FullyConsumed(t.streams))
       <==> AllLogged(s.streams.main, WellFormed(cfg.codec))
    ensures (exists t :: CanReach(cfg, s, t) && t.messages == s.messages && Finished(cfg.codec, t))
       <==> AllLogged(s.streams.main, WellFormed(cfg.codec))
  {
    if AllLogged(s.streams.main, WellFormed(cfg.codec)) {
      var t := CanAlwaysConverge(cfg, start, s);
      assert CanReach(cfg, s, t) && Finished(cfg.codec, t);
    } else {
      forall t | CanReach(cfg, s, t) ensures !FullyConsumed(t.streams) {
        NeverFullyConsumed(cfg, start, s, t);
      }
    }
  }
}
