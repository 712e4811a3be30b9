/** A retry can be overdue the moment it is scheduled: the publisher reads the clock, and the update
    takes longer than the wait. */
module SlowUpdates {
  import opened Events
  import opened OutboxRows
  import opened Protocol
  import opened StaleRedrives

  /** The publisher's first attempt has failed at time 0. */
  lemma FailsAtStart(cfg: Config, s: System, m: Message) returns (t: System, row: Row)
    requires SmallConfig(cfg) && Init(s) && s.clock == 0 && m.timestamp == 0
    ensures CanReach(cfg, s, t) && Shows(t, 0, row, t.workers) && Owns(t.rows, ROW, SLOW) && row.attempts == 0
    ensures IsAt(t, SLOW, Failing) && t.workers[SLOW].since == 0
    ensures Current(t.workers[SLOW]).id == ROW && Current(t.workers[SLOW]).attempts == 0
  {
    assert Reaches(cfg, s, [], s);
    var t1 := Step(cfg, s, s, Store(CreateMessage(m, ROW, "event", "correlation")));
    var t2 := Step(cfg, s, t1, Publisher(SLOW, StartRun));
    var t3, entry := Claims(cfg, s, t2, SLOW, t1.rows[ROW], t2.workers);
    row := t3.rows[ROW];
    t := FailsToSend(cfg, s, t3, SLOW, row, t3.workers);
  }

  /** The run. It computes a retry one second later; the update takes effect at 5000. */
  lemma SlowUpdateIsOverdue(cfg: Config, s: System, m: Message)
    returns (t: System)
    requires SmallConfig(cfg) && Init(s) && s.clock == 0 && m.timestamp == 0
    ensures CanReach(cfg, s, t) && t.clock == 5000 && t.rows.Keys == {ROW}
    ensures t.rows[ROW].status == Pending && t.rows[ROW].attempts == 1 && t.rows[ROW].nextAttemptAt == 1000
  {
    PlainDelays();
    var t1, row := FailsAtStart(cfg, s, m);
    var t2 := Step(cfg, s, t1, Store(Tick(5000)));
    t := Step(cfg, s, t2, Publisher(SLOW, RecordFailure(NoFault, 0, 1000, "")));
  }
}
