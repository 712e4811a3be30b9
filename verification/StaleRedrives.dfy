/** Why prompt redrives matter: a run, step by step, on which a matching failure update works on a
    snapshot that is not the row's truth. The redrive command read its clock before the row failed,
    so the row became due again for a claim loop that had claimed it once already. */
module StaleRedrives {
  import opened Events
  import opened OutboxRows
  import opened RetryDelays
  import opened Protocol

  const ROW: RowId := 7
  const SLOW: InstanceId := "slow"
  const OTHER: InstanceId := "other"

  /** Two attempts, batches of two, leases of a second. */
  ghost predicate SmallConfig(cfg: Config) {
    ValidConfig(cfg) && cfg.batchSize == 2 && cfg.maxAttempts == 2 && cfg.lockTimeoutMs == 1000
  }

  /** What matters of a state: the time, the one row, and the publishers. */
  predicate Shows(s: System, clock: int, row: Row, workers: map<InstanceId, Worker>) {
    s.clock == clock && s.rows == map[ROW := row] && s.workers == workers && |s.streams.main| == PARTITIONS
  }

  /** The waits the run uses: one second after a first failure, two after a second. */
  lemma PlainDelays()
    ensures PossibleRetryDelay(1, 1000) && PossibleRetryDelay(2, 2000)
  {
    assert Pow2(0) == 1 && Pow2(1) == 2;
    assert PublisherRetryDelay(1, 0.5) == 1000;
    assert PublisherRetryDelay(2, 0.5) == 2000;
  }

  /** `w`, in a claim loop, claims the row. */
  lemma Claims(cfg: Config, s: System, t: System, w: InstanceId, row: Row, workers: map<InstanceId, Worker>)
    returns (u: System, entry: Entry)
    requires SmallConfig(cfg) && CanReach(cfg, s, t) && Shows(t, t.clock, row, workers)
    requires IsClaiming(t, w) && |workers[w].batch| < 2
    requires IsClaimable(row, workers[w].now, 1000)
    ensures CanReach(cfg, s, u) && entry.id == ROW && entry.attempts == row.attempts
    ensures Shows(u, t.clock, Locked(row, w, workers[w].now),
                  workers[w := Claiming(workers[w].now, workers[w].batch + [entry])])
  {
    assert ROW in ClaimableIds(t.rows, workers[w].now, 1000);
    u := Step(cfg, s, t, Publisher(w, ClaimRow(ROW)));
    entry := u.workers[w].batch[|workers[w].batch|];
  }

  /** `w` ends its claim loop and fails to send its first entry. */
  lemma FailsToSend(cfg: Config, s: System, t: System, w: InstanceId, row: Row, workers: map<InstanceId, Worker>)
    returns (u: System)
    requires SmallConfig(cfg) && CanReach(cfg, s, t) && Shows(t, t.clock, row, workers)
    requires IsClaiming(t, w) && 1 <= |workers[w].batch| <= 2
    requires |workers[w].batch| == 1 ==> !IsClaimable(row, workers[w].now, 1000)
    ensures CanReach(cfg, s, u)
    ensures Shows(u, t.clock, row, workers[w := Processing(workers[w].batch, 0, Failing, t.clock)])
  {
    if |workers[w].batch| == 1 { assert ClaimableIds(t.rows, workers[w].now, 1000) == {}; }
    var t1 := Step(cfg, s, t, Publisher(w, FinishClaiming));
    assert Shows(t1, t.clock, row, workers[w := Processing(workers[w].batch, 0, Sending, t.clock)]);
    u := Step(cfg, s, t1, Publisher(w, Send(0, false, false)));
  }

  /** `w` records the failure and leaves its run. */
  lemma RecordsFailure(cfg: Config, s: System, t: System, w: InstanceId, row: Row, workers: map<InstanceId, Worker>)
    returns (u: System, failed: Row)
    requires SmallConfig(cfg) && CanReach(cfg, s, t) && Shows(t, t.clock, row, workers)
    requires IsAt(t, w, Failing) && workers[w].since == t.clock && Owns(t.rows, ROW, w)
    requires Current(workers[w]).id == ROW && Current(workers[w]).attempts == row.attempts < 2
    ensures CanReach(cfg, s, u) && Shows(u, t.clock, failed, workers - {w})
    ensures failed.attempts == row.attempts + 1 && failed.nextAttemptAt <= t.clock + 1000
    ensures failed.status == if row.attempts == 0 then Pending else Failed
  {
    PlainDelays();
    u := Step(cfg, s, t, Publisher(w, RecordFailure(ErrorAfter, t.clock, 1000 * (row.attempts + 1), "")));
    failed := u.rows[ROW];
  }

  /** A whole run of `w`: it claims the row and records a failed attempt. */
  lemma FailsOnce(cfg: Config, s: System, t: System, w: InstanceId, row: Row, others: map<InstanceId, Worker>)
    returns (u: System, failed: Row)
    requires SmallConfig(cfg) && CanReach(cfg, s, t) && Shows(t, t.clock, row, others)
    requires w !in others && row.attempts < 2 && IsClaimable(row, t.clock, 1000)
    ensures CanReach(cfg, s, u) && Shows(u, t.clock, failed, others)
    ensures failed.attempts == row.attempts + 1 && failed.nextAttemptAt <= t.clock + 1000
    ensures failed.status == if row.attempts == 0 then Pending else Failed
  {
    var t1 := Step(cfg, s, t, Publisher(w, StartRun));
    var t2, entry := Claims(cfg, s, t1, w, row, t1.workers);
    var t3 := FailsToSend(cfg, s, t2, w, Locked(row, w, t.clock), t2.workers);
    u, failed := RecordsFailure(cfg, s, t3, w, Locked(row, w, t.clock), t3.workers);
    assert t3.workers - {w} == others;
  }

  /** The slow publisher fails once. */
  lemma FailsFirst(cfg: Config, s: System, m: Message) returns (t: System, once: Row)
    requires SmallConfig(cfg) && Init(s) && s.clock == 0 && m.timestamp == 0
    ensures CanReach(cfg, s, t) && Shows(t, 0, once, map[])
    ensures once.status == Pending && once.attempts == 1 && once.nextAttemptAt <= 1000
  {
    assert Reaches(cfg, s, [], s);
    var t1 := Step(cfg, s, s, Store(CreateMessage(m, ROW, "event", "correlation")));
    t, once := FailsOnce(cfg, s, t1, SLOW, t1.rows[ROW], map[]);
  }

  /** Its next claim loop, begun at 2000, takes the row again. */
  lemma ClaimsSlowly(cfg: Config, s: System, m: Message) returns (t: System, row: Row)
    requires SmallConfig(cfg) && Init(s) && s.clock == 0 && m.timestamp == 0
    ensures CanReach(cfg, s, t) && Shows(t, 2000, Locked(row, SLOW, 2000), t.workers) && row.attempts == 1
    ensures IsClaiming(t, SLOW) && t.workers[SLOW].now == 2000 && OTHER !in t.workers
    ensures var batch := t.workers[SLOW].batch;
      |batch| == 1 && batch[0].id == ROW && batch[0].attempts == 1
  {
    var t1, once := FailsFirst(cfg, s, m);
    var t2 := Step(cfg, s, t1, Store(Tick(2000)));
    var t3 := Step(cfg, s, t2, Publisher(SLOW, StartRun));
    row := once;
    var first;
    t, first := Claims(cfg, s, t3, SLOW, once, t3.workers);
  }

  /** The run. The slow publisher claims the row with one attempt counted; its lease runs out and
      the other publisher uses up the last attempt; an operator resets the row with a time read
      before that; and the slow claim loop finds the row again. The publisher then works on its
      first snapshot: it holds the lock, the row has no attempts, the snapshot has one. */
  lemma StaleRedriveBreaksFencing(cfg: Config, s: System, m: Message)
    returns (t: System)
    requires SmallConfig(cfg) && Init(s) && s.clock == 0 && m.timestamp == 0
    ensures CanReach(cfg, s, t) && IsAt(t, SLOW, Failing)
    ensures var e := Current(t.workers[SLOW]);
      Owns(t.rows, e.id, SLOW) && t.rows[e.id].attempts == 0 && e.attempts == 1
  {
    var t1, row := ClaimsSlowly(cfg, s, m);
    var t2 := Step(cfg, s, t1, Store(Tick(1000)));
    var t3, spent := FailsOnce(cfg, s, t2, OTHER, Locked(row, SLOW, 2000), t1.workers);
    var t4 := Step(cfg, s, t3, Store(RedriveRows({ROW}, 1500)));
    var t5, second := Claims(cfg, s, t4, SLOW, RedrivenRow(spent, 1500), t1.workers);
    t := FailsToSend(cfg, s, t5, SLOW, t5.rows[ROW], t5.workers);
  }
}
