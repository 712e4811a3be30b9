/** The publisher's code follows the protocol: one call of `PublishEvent` is a run of the protocol's
    publisher steps, with the same table, the same topic and the same fate for the batch; and one call of
    `RunOnce` is such a run from the start of the claim loop to the end of the batch. */
module Refinement {
  import opened RetryDelays
  import opened OutboxRows
  import opened OutboxRepository
  import opened Ordering
  import opened Protocol
  import opened Publisher

  /** The worker's entry is the event the code has in hand. */
  predicate SameEvent(e: Entry, event: OutboxEvent) {
    e.id == event.id && e.event == event.row.event && e.key == event.row.key && e.attempts == event.row.attempts
  }

  /** State `t` is where attempt `a` of `event` by `w` leads from `s`. */
  predicate Follows(cfg: Config, s: System, w: InstanceId, event: OutboxEvent, a: Attempt, delayMs: int, t: System)
    requires IsAt(s, w, Sending) && a.partition < |s.streams.main|
  {
    && t.rows == RowsDelayed(s.rows, event, w, cfg.maxAttempts, a, delayMs)
    && t.streams == s.streams.(main := TopicAttempted(cfg.codec, s.streams.main, event, a))
    && t.workers == if Escapes(a) then s.workers - {w}
                    else s.workers[w := AtNext(s.workers[w], t.clock)]
  }

  /** The clock moves on from `t.clock` to `now`. */
  lemma WaitUntil(cfg: Config, s: System, t: System, now: int) returns (u: System)
    requires CanReach(cfg, s, t) && t.clock <= now
    ensures CanReach(cfg, s, u) && u == t.(clock := now)
  {
    u := Step(cfg, s, t, Store(Tick(now - t.clock)));
  }

  lemma SendFollows(cfg: Config, s: System, w: InstanceId, event: OutboxEvent, a: Attempt) returns (t: System)
    requires IsAt(s, w, Sending) && ValidAttempt(a, |s.streams.main|)
    requires SameEvent(Current(s.workers[w]), event)
    ensures CanReach(cfg, s, t) && IsAt(t, w, if a.acknowledged then Marking else Failing)
    ensures t.clock == s.clock && t.rows == s.rows
    ensures t.streams == s.streams.(main := TopicAttempted(cfg.codec, s.streams.main, event, a))
    ensures t.workers == s.workers[w := AtStage(s.workers[w], if a.acknowledged then Marking else Failing, s.clock)]
  {
    assert Reaches(cfg, s, [], s);
    t := Step(cfg, s, s, Publisher(w, Send(a.partition, a.appended, a.acknowledged)));
  }

  lemma DelayIsPossible(attempts: int, random: real)
    requires 0.0 <= random <= 1.0
    ensures PossibleRetryDelay(attempts, PublisherRetryDelay(attempts, random))
  {
  }

  lemma FailureFollows(cfg: Config, s: System, t: System, w: InstanceId, event: OutboxEvent, a: Attempt, delayMs: int)
    returns (u: System)
    requires CanReach(cfg, s, t) && IsAt(t, w, Failing) && SameEvent(Current(t.workers[w]), event)
    requires PossibleRetryDelay(event.row.attempts + 1, delayMs) && t.clock <= a.failedAt
    requires t.workers[w].since <= t.clock
    ensures CanReach(cfg, s, u) && u.streams == t.streams && u.clock == a.failedAt
    ensures u.rows == if a.failureFault == ErrorBefore then t.rows
      else FailureRecorded(t.rows, event.id, w, event.row.attempts, cfg.maxAttempts, a.failedAt, delayMs, a.error)
    ensures u.workers == if a.failureFault == NoFault
      then t.workers[w := AtNext(t.workers[w], u.clock)] else t.workers - {w}
  {
    var later := WaitUntil(cfg, s, t, a.failedAt);
    u := Step(cfg, s, later, Publisher(w, RecordFailure(a.failureFault, a.failedAt, delayMs, a.error)));
  }

  lemma MarkFollows(cfg: Config, s: System, sent: System, w: InstanceId, event: OutboxEvent, a: Attempt)
    returns (t: System)
    requires CanReach(cfg, s, sent) && IsAt(sent, w, Marking) && SameEvent(Current(sent.workers[w]), event)
    requires a.acknowledged && sent.workers[w].since <= sent.clock <= a.publishedAt
    ensures CanReach(cfg, s, t) && t.streams == sent.streams && t.clock == a.publishedAt
    ensures t.rows == RowsMarked(sent.rows, event, w, a)
    ensures var k := sent.workers[w];
      t.workers == sent.workers[w := if a.markFault == NoFault then AtNext(k, t.clock)
                                     else AtStage(k, Failing, t.clock)]
  {
    var later := WaitUntil(cfg, s, sent, a.publishedAt);
    t := Step(cfg, s, later, Publisher(w, Mark(a.markFault, a.publishedAt)));
  }

  lemma Overwritten(workers: map<InstanceId, Worker>, w: InstanceId, k: Worker, l: Worker)
    ensures workers[w := k][w := l] == workers[w := l] && workers[w := k] - {w} == workers - {w}
  {
  }

  lemma AttemptFollows(cfg: Config, s: System, sent: System, w: InstanceId, event: OutboxEvent, a: Attempt,
                       delayMs: int)
    returns (t: System)
    requires CanReach(cfg, s, sent) && IsAt(sent, w, if a.acknowledged then Marking else Failing)
    requires SameEvent(Current(sent.workers[w]), event)
    requires PossibleRetryDelay(event.row.attempts + 1, delayMs) && sent.clock <= a.publishedAt <= a.failedAt
    requires sent.workers[w].since <= sent.clock
    ensures CanReach(cfg, s, t) && t.streams == sent.streams && t.clock <= a.failedAt
    ensures t.rows == RowsDelayed(sent.rows, event, w, cfg.maxAttempts, a, delayMs)
    ensures t.workers == if Escapes(a) then sent.workers - {w}
      else sent.workers[w := AtNext(sent.workers[w], t.clock)]
  {
    if !a.acknowledged {
      t := FailureFollows(cfg, s, sent, w, event, a, delayMs);
    } else {
      var marked := MarkFollows(cfg, s, sent, w, event, a);
      t := marked;
      if !Succeeds(a) {
        t := FailureFollows(cfg, s, marked, w, event, a, delayMs);
        Overwritten(sent.workers, w, AtStage(sent.workers[w], Failing, marked.clock), AtNext(sent.workers[w], t.clock));
      }
    }
  }

  /** Whatever the attempt meets, what `PublishEvent` does is a run of the protocol. */
  lemma PublishEventFollows(cfg: Config, s: System, w: InstanceId, event: OutboxEvent, a: Attempt)
    returns (t: System)
    requires IsAt(s, w, Sending) && ValidAttempt(a, |s.streams.main|)
    requires SameEvent(Current(s.workers[w]), event) && s.clock <= a.publishedAt <= a.failedAt
    ensures CanReach(cfg, s, t) && t.clock <= a.failedAt
    ensures Follows(cfg, s, w, event, a, PublisherRetryDelay(event.row.attempts + 1, a.random), t)
  {
    var delayMs := PublisherRetryDelay(event.row.attempts + 1, a.random);
    DelayIsPossible(event.row.attempts + 1, a.random);
    var sent := SendFollows(cfg, s, w, event, a);
    t := AttemptFollows(cfg, s, sent, w, event, a, delayMs);
    assert t.workers == if Escapes(a) then s.workers - {w} else s.workers[w := AtNext(s.workers[w], t.clock)];
  }

  // ---- The claim loop ----

  /** Once the first `n` are locked, the `n`th is the least that is claimable. */
  lemma NextIsLeast(before: Table, ids: seq<RowId>, n: nat, w: InstanceId, now: int, cfg: Config)
    requires n < |ids| && cfg.lockTimeoutMs > 0 && (forall i, j :: 0 <= i < j < |ids| ==> ids[i] < ids[j])
    requires forall i :: 0 <= i < |ids| ==> ids[i] in ClaimableIds(before, now, cfg.lockTimeoutMs)
    requires forall x :: x in ClaimableIds(before, now, cfg.lockTimeoutMs) && x !in ids ==> ids[n] < x
    ensures ids[n] !in ids[..n] && IsNextClaim(AllLocked(before, ids[..n], w, now), now, cfg.lockTimeoutMs, ids[n])
  {
    var t := AllLocked(before, ids[..n], w, now);
    assert forall k :: 0 <= k < n ==> ids[..n][k] == ids[k];
    forall x | x in ClaimableIds(t, now, cfg.lockTimeoutMs) ensures ids[n] <= x {
      assert x !in ids[..n] && x in ClaimableIds(before, now, cfg.lockTimeoutMs);
      if x in ids { var j :| 0 <= j < |ids| && ids[j] == x; }
    }
  }

  /** After the first `n` claims, the next one is exactly what the database will find. */
  lemma NextClaim(before: Table, ids: seq<RowId>, claimed: seq<OutboxEvent>, n: nat, w: InstanceId, now: int,
                  cfg: Config)
    requires ClaimedSoFar(before, ids, claimed, w, now, cfg) && n < |ids| && cfg.lockTimeoutMs > 0
    ensures ids[n] in before && ids[n] !in ids[..n]
    ensures claimed[n] == OutboxEvent(ids[n], Locked(before[ids[n]], w, now))
    ensures IsNextClaim(AllLocked(before, ids[..n], w, now), now, cfg.lockTimeoutMs, ids[n])
  {
    var left := ClaimableIds(AllLocked(before, ids, w, now), now, cfg.lockTimeoutMs);
    ArrangedStart(ClaimableIds(before, now, cfg.lockTimeoutMs), ids, Arrange(left, ById()));
    NextIsLeast(before, ids, n, w, now, cfg);
  }

  /** The worker's batch has the events of `claimed`. */
  predicate SameBatch(batch: seq<Entry>, claimed: seq<OutboxEvent>) {
    |batch| == |claimed| && forall k :: 0 <= k < |batch| ==> SameEvent(batch[k], claimed[k])
  }

  /** A state in which `w` has claimed `claimed`, the rows `ids` of `before`, since `now`. */
  predicate HasClaimed(s: System, t: System, w: InstanceId, ids: seq<RowId>, claimed: seq<OutboxEvent>) {
    && t.clock == s.clock && t.streams == s.streams && t.workers - {w} == s.workers
    && t.rows == AllLocked(s.rows, ids, w, s.clock)
    && IsClaiming(t, w) && t.workers[w].now == s.clock && SameBatch(t.workers[w].batch, claimed)
  }

  lemma OneMoreClaim(s: System, t: System, w: InstanceId, ids: seq<RowId>, claimed: seq<OutboxEvent>,
                     event: OutboxEvent)
    requires HasClaimed(s, t, w, ids, claimed)
    requires event.id in s.rows && event.id !in ids && event.row == Locked(s.rows[event.id], w, s.clock)
    ensures HasClaimed(s, ApplyClaim(t, w, event.id), w, ids + [event.id], claimed + [event])
  {
    OneMoreLocked(s.rows, ids, event.id, w, s.clock);
    assert ApplyClaim(t, w, event.id).workers - {w} == t.workers - {w};
  }

  lemma ClaimFollows(cfg: Config, s: System, t: System, w: InstanceId, ids: seq<RowId>, claimed: seq<OutboxEvent>,
                     n: nat)
    returns (u: System)
    requires n < |ids| == |claimed| <= cfg.batchSize && CanReach(cfg, s, t)
    requires HasClaimed(s, t, w, ids[..n], claimed[..n])
    requires IsNextClaim(t.rows, s.clock, cfg.lockTimeoutMs, ids[n])
    requires ids[n] in s.rows && ids[n] !in ids[..n]
    requires claimed[n] == OutboxEvent(ids[n], Locked(s.rows[ids[n]], w, s.clock))
    ensures CanReach(cfg, s, u) && HasClaimed(s, u, w, ids[..n + 1], claimed[..n + 1])
  {
    assert ids[..n] + [ids[n]] == ids[..n + 1];
    assert claimed[..n] + [claimed[n]] == claimed[..n + 1];
    OneMoreClaim(s, t, w, ids[..n], claimed[..n], claimed[n]);
    u := Step(cfg, s, t, Publisher(w, ClaimRow(ids[n])));
  }

  lemma StartFollows(cfg: Config, s: System, w: InstanceId) returns (t: System)
    requires w !in s.workers
    ensures CanReach(cfg, s, t) && HasClaimed(s, t, w, [], [])
  {
    assert Reaches(cfg, s, [], s);
    t := Step(cfg, s, s, Publisher(w, StartRun));
    assert t.workers - {w} == s.workers;
  }

  lemma {:induction false} ClaimsFollow(cfg: Config, s: System, w: InstanceId, ids: seq<RowId>,
                                        claimed: seq<OutboxEvent>, n: nat)
    returns (t: System)
    requires ClaimedSoFar(s.rows, ids, claimed, w, s.clock, cfg) && n <= |ids| && cfg.lockTimeoutMs > 0
    requires w !in s.workers
    ensures CanReach(cfg, s, t) && HasClaimed(s, t, w, ids[..n], claimed[..n])
  {
    if n == 0 {
      t := StartFollows(cfg, s, w);
    } else {
      t := ClaimsFollow(cfg, s, w, ids, claimed, n - 1);
      NextClaim(s.rows, ids, claimed, n - 1, w, s.clock, cfg);
      t := ClaimFollows(cfg, s, t, w, ids, claimed, n - 1);
    }
  }

  // ---- The batch ----

  /** The attempts' clock readings are in order, from `now` on. */
  predicate InOrder(script: seq<Attempt>, now: int) {
    && (forall k :: 0 <= k < |script| ==> now <= script[k].publishedAt <= script[k].failedAt)
    && (forall j, k :: 0 <= j < k < |script| ==> script[j].failedAt <= script[k].publishedAt)
  }

  /** A state in which `w` has attempted the first `n` events of `claimed`. */
  ghost predicate HasAttempted(cfg: Config, s: System, t: System, w: InstanceId, ids: seq<RowId>,
                               claimed: seq<OutboxEvent>, n: nat, script: seq<Attempt>)
    requires n <= |claimed| <= |script| && ValidScript(script, |s.streams.main|)
  {
    && t.rows == RowsAfter(AllLocked(s.rows, ids, w, s.clock), claimed[..n], w, cfg.maxAttempts, script)
    && t.streams == s.streams.(main := TopicAfter(cfg.codec, s.streams.main, claimed[..n], script))
    && t.workers - {w} == s.workers
    && t.clock <= (if n == 0 then s.clock else script[n - 1].failedAt)
  }

  predicate IsProcessing(t: System, w: InstanceId, claimed: seq<OutboxEvent>, n: nat) {
    && w in t.workers && t.workers[w].Processing? && t.workers[w].next == n && t.workers[w].stage == Sending
    && SameBatch(t.workers[w].batch, claimed)
  }

  lemma OneMoreAttempt(cfg: Config, s: System, t: System, w: InstanceId, ids: seq<RowId>, claimed: seq<OutboxEvent>,
                       n: nat, script: seq<Attempt>)
    returns (u: System)
    requires n < |claimed| <= |script| && ValidScript(script, |s.streams.main|) && InOrder(script, s.clock)
    requires CanReach(cfg, s, t) && HasAttempted(cfg, s, t, w, ids, claimed, n, script)
    requires IsProcessing(t, w, claimed, n)
    ensures CanReach(cfg, s, u) && HasAttempted(cfg, s, u, w, ids, claimed, n + 1, script)
    ensures if Escapes(script[n]) then w !in u.workers else IsProcessing(u, w, claimed, n + 1)
  {
    u := PublishEventFollows(cfg, t, w, claimed[n], script[n]);
    CanReachOn(cfg, s, t, u);
    assert claimed[..n + 1][..n] == claimed[..n];
    assert u.workers - {w} == t.workers - {w};
  }

  lemma {:induction false} AttemptsFollow(cfg: Config, s: System, t0: System, w: InstanceId, ids: seq<RowId>,
                                          claimed: seq<OutboxEvent>, n: nat, script: seq<Attempt>)
    returns (t: System)
    requires n <= |claimed| <= |script| && ValidScript(script, |s.streams.main|) && InOrder(script, s.clock)
    requires CanReach(cfg, s, t0) && HasAttempted(cfg, s, t0, w, ids, claimed, 0, script)
    requires IsProcessing(t0, w, claimed, 0)
    requires forall k :: 0 <= k < n - 1 ==> !Escapes(script[k])
    ensures CanReach(cfg, s, t) && HasAttempted(cfg, s, t, w, ids, claimed, n, script)
    ensures if n > 0 && Escapes(script[n - 1]) then w !in t.workers else IsProcessing(t, w, claimed, n)
    decreases n
  {
    if n == 0 {
      t := t0;
    } else {
      t := AttemptsFollow(cfg, s, t0, w, ids, claimed, n - 1, script);
      t := OneMoreAttempt(cfg, s, t, w, ids, claimed, n - 1, script);
    }
  }

  lemma BatchStarts(cfg: Config, s: System, w: InstanceId, ids: seq<RowId>, claimed: seq<OutboxEvent>,
                    script: seq<Attempt>)
    returns (t: System)
    requires cfg.lockTimeoutMs > 0 && w !in s.workers && |claimed| <= |script|
    requires BatchClaimed(s.rows, ids, claimed, w, s.clock, cfg) && ValidScript(script, |s.streams.main|)
    ensures CanReach(cfg, s, t) && HasAttempted(cfg, s, t, w, ids, claimed, 0, script)
    ensures IsProcessing(t, w, claimed, 0)
  {
    t := ClaimsFollow(cfg, s, w, ids, claimed, |ids|);
    assert ids[..|ids|] == ids && claimed[..|ids|] == claimed;
    var before := t.workers;
    t := Step(cfg, s, t, Publisher(w, FinishClaiming));
    assert t.workers - {w} == before - {w};
  }

  /** A claim loop that an error cuts short is such a run too. */
  lemma FailedClaimsFollow(cfg: Config, s: System, w: InstanceId, ids: seq<RowId>, claimed: seq<OutboxEvent>)
    returns (t: System)
    requires cfg.lockTimeoutMs > 0 && w !in s.workers && ClaimedSoFar(s.rows, ids, claimed, w, s.clock, cfg)
    ensures CanReach(cfg, s, t) && t.workers == s.workers && t.streams == s.streams
    ensures t.rows == AllLocked(s.rows, ids, w, s.clock)
  {
    t := ClaimsFollow(cfg, s, w, ids, claimed, |ids|);
    assert ids[..|ids|] == ids && claimed[..|ids|] == claimed;
    t := Step(cfg, s, t, Publisher(w, LeaveRun));
  }

  lemma BatchFollows(cfg: Config, s: System, w: InstanceId, run: Run, script: seq<Attempt>)
    returns (t: System)
    requires cfg.lockTimeoutMs > 0 && w !in s.workers && run.end != ClaimsFailed
    requires ValidRun(run, s.rows, w, s.clock, cfg, script)
    requires ValidScript(script, |s.streams.main|) && InOrder(script, s.clock)
    ensures CanReach(cfg, s, t) && t.workers == s.workers
    ensures t.rows == RowsAfter(AllLocked(s.rows, run.ids, w, s.clock), run.claimed[..run.done], w,
                                cfg.maxAttempts, script)
    ensures t.streams == s.streams.(main := TopicAfter(cfg.codec, s.streams.main, run.claimed[..run.done], script))
  {
    t := BatchStarts(cfg, s, w, run.ids, run.claimed, script);
    t := AttemptsFollow(cfg, s, t, w, run.ids, run.claimed, run.done, script);
    if run.end == AllDone { t := Step(cfg, s, t, Publisher(w, LeaveRun)); }
    assert t.workers == s.workers;
  }

  /** One call of `RunOnce`, whatever it meets, is a run of the protocol: the protocol can go from
      the state before the call to one with exactly the table and the topic the call leaves, and no
      trace of a worker. The call's run is that of `PublisherService.RunOnce`. */
  lemma RunOnceFollows(cfg: Config, s: System, w: InstanceId, run: Run, script: seq<Attempt>)
    returns (t: System)
    requires cfg.lockTimeoutMs > 0 && w !in s.workers
    requires ValidRun(run, s.rows, w, s.clock, cfg, script)
    requires ValidScript(script, |s.streams.main|) && InOrder(script, s.clock)
    ensures CanReach(cfg, s, t) && t.workers == s.workers
    ensures t.rows == RowsAfter(AllLocked(s.rows, run.ids, w, s.clock), run.claimed[..run.done], w,
                                cfg.maxAttempts, script)
    ensures t.streams == s.streams.(main := TopicAfter(cfg.codec, s.streams.main, run.claimed[..run.done], script))
  {
    if run.end == ClaimsFailed {
      t := FailedClaimsFollow(cfg, s, w, run.ids, run.claimed);
    } else {
      t := BatchFollows(cfg, s, w, run, script);
    }
  }
}
