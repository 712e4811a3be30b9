/** One run of the publisher: claim a batch, then send and mark each event in turn. The outside
    world, that is the broker, the clock, the jitter and database errors, is a script of attempts. */
module Publisher {
  import opened Wrappers
  import opened Codecs
  import opened Events
  import opened RetryDelays
  import opened OutboxRows
  import opened OutboxRepository
  import opened Topics
  import opened Protocol

  /** What happens to one event: whether its record is appended and acknowledged, what the two
      database updates run into, the clock when each is made, and the jitter drawn. */
  datatype Attempt = Attempt(
    partition: nat, appended: bool, acknowledged: bool, markFault: Fault, failureFault: Fault,
    publishedAt: int, failedAt: int, random: real, error: string)

  ghost predicate ValidAttempt(a: Attempt, partitions: nat) {
    a.partition < partitions && (a.acknowledged ==> a.appended) && 0.0 <= a.random <= 1.0
  }

  ghost predicate ValidScript(script: seq<Attempt>, partitions: nat) {
    forall k :: 0 <= k < |script| ==> ValidAttempt(script[k], partitions)
  }

  /** The send was acknowledged and marking reported no error. */
  predicate Succeeds(a: Attempt) {
    a.acknowledged && a.markFault == NoFault
  }

  /** The table after `markPublished`, if it was called and took effect. */
  function RowsMarked(t: Table, e: OutboxEvent, owner: InstanceId, a: Attempt): Table {
    if a.acknowledged && a.markFault != ErrorBefore then MarkedPublished(t, e.id, owner, a.publishedAt) else t
  }

  /** The table after the whole attempt, if a retry is to wait `delayMs`. */
  function RowsDelayed(t: Table, e: OutboxEvent, owner: InstanceId, maxAttempts: nat, a: Attempt, delayMs: int): Table {
    var marked := RowsMarked(t, e, owner, a);
    if Succeeds(a) || a.failureFault == ErrorBefore then marked
    else FailureRecorded(marked, e.id, owner, e.row.attempts, maxAttempts, a.failedAt, delayMs, a.error)
  }

  function RowsAttempted(t: Table, e: OutboxEvent, owner: InstanceId, maxAttempts: nat, a: Attempt): Table {
    RowsDelayed(t, e, owner, maxAttempts, a, PublisherRetryDelay(e.row.attempts + 1, a.random))
  }

  function TopicAttempted(c: Codec, t: Topic, e: OutboxEvent, a: Attempt): Topic
    requires a.partition < |t|
  {
    if a.appended then Append(t, a.partition, EventRecord(c, e.row.key, e.row.event)) else t
  }

  /** Neither the attempt nor the record of its failure went through: an exception escapes. */
  predicate Escapes(a: Attempt) {
    !Succeeds(a) && a.failureFault != NoFault
  }

  /** The first `done` of `count` attempts were made: all of them, or as far as one that escapes. */
  predicate BatchEnd(ok: bool, done: nat, count: nat, script: seq<Attempt>)
    requires done <= count <= |script|
  {
    && (forall k :: 0 <= k < (if ok then done else done - 1) ==> !Escapes(script[k]))
    && if ok then done == count else done > 0 && Escapes(script[done - 1])
  }

  /** The table after the events of a batch have been attempted in order. */
  function RowsAfter(t: Table, events: seq<OutboxEvent>, owner: InstanceId, maxAttempts: nat,
                     script: seq<Attempt>): Table
    requires |events| <= |script|
  {
    if events == [] then t else
    var n := |events| - 1;
    RowsAttempted(RowsAfter(t, events[..n], owner, maxAttempts, script), events[n], owner, maxAttempts, script[n])
  }

  ghost function TopicAfter(c: Codec, t: Topic, events: seq<OutboxEvent>, script: seq<Attempt>): (u: Topic)
    requires |events| <= |script| && ValidScript(script, |t|)
    ensures |u| == |t|
  {
    if events == [] then t else
    var n := |events| - 1;
    TopicAttempted(c, TopicAfter(c, t, events[..n], script), events[n], script[n])
  }

  /** `ids` are the first claimable rows of `before`, a full batch of them at most, and `claimed` are those
      rows as locked. */
  ghost predicate ClaimedSoFar(before: Table, ids: seq<RowId>, claimed: seq<OutboxEvent>, owner: InstanceId,
                               now: int, config: Config)
  {
    var locked := AllLocked(before, ids, owner, now);
    && FirstClaimed(before, ids, locked, owner, now, config.lockTimeoutMs)
    && |ids| <= config.batchSize && Snapshots(claimed, ids, locked)
  }

  /** And they are a full batch, or all of them. */
  ghost predicate BatchClaimed(before: Table, ids: seq<RowId>, claimed: seq<OutboxEvent>, owner: InstanceId,
                               now: int, config: Config)
  {
    && ClaimedSoFar(before, ids, claimed, owner, now, config)
    && (|ids| == config.batchSize
        || ClaimableIds(AllLocked(before, ids, owner, now), now, config.lockTimeoutMs) == {})
  }

  /** How a run ends: an error escapes from the claim loop, or from the last attempt made, or all
      claimed events have been attempted. */
  datatype RunEnd = ClaimsFailed | Escaped | AllDone

  /** A run: it locked rows `ids`, as `claimed`, and attempted the first `done` of them. */
  datatype Run = Run(ids: seq<RowId>, claimed: seq<OutboxEvent>, done: nat, end: RunEnd)

  ghost predicate ValidRun(run: Run, before: Table, owner: InstanceId, now: int, config: Config, script: seq<Attempt>) {
    && ClaimedSoFar(before, run.ids, run.claimed, owner, now, config)
    && run.done <= |run.claimed| <= |script|
    && if run.end == ClaimsFailed then run.done == 0
       else && BatchClaimed(before, run.ids, run.claimed, owner, now, config)
            && BatchEnd(run.end == AllDone, run.done, |run.claimed|, script)
  }

  /** Row `s` is what the owner's attempt makes of its row `r`: published at the time read for that, if the record
      was acknowledged and the mark took effect; else, if the failure could be recorded, failed or to be
      tried again, by the attempts of the snapshot; else as it was. */
  predicate IsAttempted(r: Row, s: Row, claimedAttempts: nat, maxAttempts: nat, a: Attempt) {
    if a.acknowledged && a.markFault != ErrorBefore then
      s == Row(r.event, r.key, Published, r.attempts, r.nextAttemptAt, None, None, None, r.createdAt,
               Some(a.publishedAt))
    else if a.failureFault == ErrorBefore then s == r
    else if claimedAttempts + 1 >= maxAttempts then
      s == Row(r.event, r.key, Failed, claimedAttempts + 1, a.failedAt, None, None, Some(a.error), r.createdAt,
               r.publishedAt)
    else
      s == Row(r.event, r.key, Pending, claimedAttempts + 1,
               a.failedAt + PublisherRetryDelay(claimedAttempts + 1, a.random), None, None, Some(a.error), r.createdAt,
               r.publishedAt)
  }

  class PublisherService {
    const config: Config
    const instanceId: InstanceId
    const repository: MongoOutboxRepository
    var main: Topic

    constructor (config: Config, instanceId: InstanceId, repository: MongoOutboxRepository, main: Topic)
      ensures this.config == config && this.instanceId == instanceId
      ensures this.repository == repository && this.main == main
    {
      this.config := config;
      this.instanceId := instanceId;
      this.repository := repository;
      this.main := main;
    }

    /** Record a failed attempt; `ok` is false when the database update throws. */
    method HandlePublishFailure(event: OutboxEvent, a: Attempt) returns (ok: bool)
      modifies repository
      ensures ok <==> a.failureFault == NoFault
      ensures repository.rows == if a.failureFault == ErrorBefore then old(repository.rows)
        else FailureRecorded(old(repository.rows), event.id, instanceId, event.row.attempts,
                             config.maxAttempts, a.failedAt,
                             PublisherRetryDelay(event.row.attempts + 1, a.random), a.error)
    {
      if a.failureFault == ErrorBefore { return false; }
      var attempts := event.row.attempts + 1;
      if attempts >= config.maxAttempts {
        var marked := repository.MarkFailed(event.id, instanceId, attempts, a.failedAt, a.error);
      } else {
        var nextAttemptAt := a.failedAt + PublisherRetryDelay(attempts, a.random);
        var scheduled := repository.ScheduleRetry(event.id, instanceId, attempts, nextAttemptAt, a.error);
      }
      ok := a.failureFault == NoFault;
    }

    /** Send the event and mark its row. A send that fails, or a mark that throws, is a failed
        attempt; so an event may be in the topic although its row was never marked. */
    method PublishEvent(event: OutboxEvent, a: Attempt) returns (ok: bool)
      requires ValidAttempt(a, |main|)
      modifies this`main, repository
      ensures ok <==> !Escapes(a)
      ensures ok <==> (a.acknowledged && a.markFault == NoFault) || a.failureFault == NoFault
      ensures main == TopicAttempted(config.codec, old(main), event, a)
      ensures repository.rows == RowsAttempted(old(repository.rows), event, instanceId, config.maxAttempts, a)
      // the topic: one more record in one partition, or none
      ensures |main| == |old(main)| && forall p :: 0 <= p < |main| && p != a.partition ==> main[p] == old(main)[p]
      ensures var before := old(main)[a.partition];
        var value := WireValue(config.codec, event.row.event);
        var record := Record(Some(config.codec.encodeUtf8(event.row.key)), Some(value));
        main[a.partition] == before.(log := if a.appended then before.log + [record] else before.log)
      // the table: nothing but the row, and that only if it is owned
      ensures !Owns(old(repository.rows), event.id, instanceId) ==> repository.rows == old(repository.rows)
      ensures repository.rows.Keys == old(repository.rows).Keys
      ensures forall x :: x in repository.rows && x != event.id ==> repository.rows[x] == old(repository.rows)[x]
      ensures Owns(old(repository.rows), event.id, instanceId) ==>
        IsAttempted(old(repository.rows)[event.id], repository.rows[event.id], event.row.attempts,
                    config.maxAttempts, a)
    {
      if a.appended {
        main := Append(main, a.partition, EventRecord(config.codec, event.row.key, event.row.event));
      }
      if a.acknowledged {
        if a.markFault != ErrorBefore {
          var marked := repository.MarkPublished(event.id, instanceId, a.publishedAt);
        }
        if a.markFault == NoFault { return true; }
      }
      ok := HandlePublishFailure(event, a);
    }

    /** Attempt the events in order; `done` of them, all unless an error escapes from the last one
        attempted. */
    method PublishBatch(events: seq<OutboxEvent>, script: seq<Attempt>) returns (ok: bool, ghost done: nat)
      requires |events| <= |script| && ValidScript(script, |main|)
      modifies this`main, repository
      ensures done <= |events| && BatchEnd(ok, done, |events|, script)
      ensures repository.rows == RowsAfter(old(repository.rows), events[..done], instanceId, config.maxAttempts, script)
      ensures main == TopicAfter(config.codec, old(main), events[..done], script)
    {
      ok, done := true, 0;
      for i := 0 to |events|
        invariant ok && done == i && |main| == |old(main)|
        invariant forall k :: 0 <= k < i ==> !Escapes(script[k])
        invariant repository.rows
               == RowsAfter(old(repository.rows), events[..i], instanceId, config.maxAttempts, script)
        invariant main == TopicAfter(config.codec, old(main), events[..i], script)
      {
        ok := PublishEvent(events[i], script[i]);
        done := i + 1;
        assert events[..i + 1][..i] == events[..i];
        if !ok { return; }
      }
    }

    /** Claim a batch at `now` and attempt it. `result` is the number of events, unless an error escapes:
        from the claim loop, from an attempt, or from the query for the metrics. */
    method RunOnce(now: int, script: seq<Attempt>, failure: Option<ClaimFailure>, metricsFail: bool)
      returns (result: Option<nat>, ghost run: Run)
      requires config.lockTimeoutMs > 0 && |script| >= config.batchSize && ValidScript(script, |main|)
      modifies this`main, repository
      ensures ValidRun(run, old(repository.rows), instanceId, now, config, script)
      ensures result == if run.end == AllDone && !metricsFail then Some(|run.claimed|) else None
      ensures failure.None? ==> run.end != ClaimsFailed
      ensures repository.rows == RowsAfter(AllLocked(old(repository.rows), run.ids, instanceId, now),
                                           run.claimed[..run.done], instanceId, config.maxAttempts, script)
      ensures main == TopicAfter(config.codec, old(main), run.claimed[..run.done], script)
    {
      var ok, events;
      ghost var ids, claimed, done;
      ok, events, ids, claimed :=
        repository.ClaimPublishable(config.batchSize, instanceId, config.lockTimeoutMs, now, failure);
      run := Run(ids, claimed, 0, ClaimsFailed);
      if !ok { return None, run; }
      ok, done := PublishBatch(events, script);
      run := Run(ids, claimed, done, if ok then AllDone else Escaped);
      result := if ok && !metricsFail then Some(|events|) else None;
    }
  }
}
