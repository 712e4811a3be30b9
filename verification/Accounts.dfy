/** What claims and attempts add up to on every run, stale redrives included: a matching failure update
    may count too much, but it never takes an attempt back, and claims are paid for by attempts. */
module Accounts {
  import opened Wrappers
  import opened OutboxRows
  import opened RetryDelays
  import opened Protocol
  import opened Delivery

  /** A claim loop that began at `now` cannot find this row again, unless a redrive has reset it. */
  predicate SpentOrReset(r: Row, now: int) {
    r.attempts == 0 ||
    match r.status
    case Pending => r.nextAttemptAt > now
    case Publishing => r.lockedAt.Some? && r.lockedAt.value >= now
    case _ => true
  }

  ghost predicate LoopsInv(clock: int, rows: Table, workers: map<InstanceId, Worker>) {
    forall w :: w in workers && workers[w].Claiming? ==>
      && workers[w].now <= clock
      && forall i :: 0 <= i < |workers[w].batch| && workers[w].batch[i].id in rows ==>
           SpentOrReset(rows[workers[w].batch[i].id], workers[w].now)
  }

  /** Whoever has taken a row over from a claim loop has finished claiming after that loop began. */
  ghost predicate TakenLaterInv(rows: Table, workers: map<InstanceId, Worker>) {
    forall v, w, i ::
      (v in workers && workers[v].Processing? && w in workers && workers[w].Claiming?
       && 0 <= i < |workers[w].batch| && Owns(rows, workers[w].batch[i].id, v)) ==>
        workers[w].now <= workers[v].since
  }

  /** A row's attempts are at most those of every snapshot that the owner of its lock has of it. */
  ghost predicate SnapshotsInv(rows: Table, workers: map<InstanceId, Worker>) {
    forall w, i :: w in workers && 0 <= i < |workers[w].batch| && Owns(rows, workers[w].batch[i].id, w) ==>
      rows[workers[w].batch[i].id].attempts <= workers[w].batch[i].attempts
  }

  /** Each claim of the row took over a lock, or led to an attempt, or is the one that holds or
      published the row now. */
  predicate PaidFor(r: Row, t: Tally) {
    t.claims <= t.takeovers + r.attempts + if r.status == Publishing || r.status == Published then 1 else 0
  }

  ghost predicate PaidInv(rows: Table, tallies: map<RowId, Tally>) {
    forall id :: id in rows ==> id in tallies && PaidFor(rows[id], tallies[id])
  }

  ghost predicate AccountsInv(s: System) {
    && LoopsInv(s.clock, s.rows, s.workers) && TakenLaterInv(s.rows, s.workers)
    && SnapshotsInv(s.rows, s.workers) && PaidInv(s.rows, s.history.tallies)
  }

  // ---- Store steps ----

  /** A step of the store leaves the row of a snapshot as it is, or resets it to pending, or drops it. */
  lemma SnapshotRow(cfg: Config, s: System, a: StoreAction, w: InstanceId, i: int)
    requires EntriesInv(cfg, s.messages, s.issuedIds, s.rows, s.workers) && StoreEnabled(s, a)
    requires w in s.workers && 0 <= i < |s.workers[w].batch|
    ensures var id := s.workers[w].batch[i].id;
      var rows := ApplyStore(cfg, s, a).rows;
      id in rows ==> id in s.rows && (rows[id] == s.rows[id] || (rows[id].status == Pending && rows[id].attempts == 0))
  {
    assert EntryOk(cfg, s.messages, s.issuedIds, s.rows, s.workers[w].batch[i]);
  }

  lemma StoreKeepsLoops(cfg: Config, s: System, a: StoreAction)
    requires LoopsInv(s.clock, s.rows, s.workers) && StoreEnabled(s, a)
    requires EntriesInv(cfg, s.messages, s.issuedIds, s.rows, s.workers)
    ensures var t := ApplyStore(cfg, s, a); LoopsInv(t.clock, t.rows, s.workers)
  {
    var t := ApplyStore(cfg, s, a);
    forall w, i | w in s.workers && s.workers[w].Claiming? && 0 <= i < |s.workers[w].batch|
                  && s.workers[w].batch[i].id in t.rows
      ensures SpentOrReset(t.rows[s.workers[w].batch[i].id], s.workers[w].now)
    {
      SnapshotRow(cfg, s, a, w, i);
    }
  }

  lemma StoreKeepsOwned(cfg: Config, s: System, a: StoreAction)
    requires TakenLaterInv(s.rows, s.workers) && SnapshotsInv(s.rows, s.workers) && StoreEnabled(s, a)
    requires EntriesInv(cfg, s.messages, s.issuedIds, s.rows, s.workers)
    ensures var t := ApplyStore(cfg, s, a); TakenLaterInv(t.rows, s.workers) && SnapshotsInv(t.rows, s.workers)
  {
    var t := ApplyStore(cfg, s, a);
    forall w, i, v | w in s.workers && 0 <= i < |s.workers[w].batch| && Owns(t.rows, s.workers[w].batch[i].id, v)
      ensures s.workers[w].batch[i].id in s.rows
      ensures t.rows[s.workers[w].batch[i].id] == s.rows[s.workers[w].batch[i].id]
    {
      SnapshotRow(cfg, s, a, w, i);
    }
  }

  lemma StoreKeepsPaid(cfg: Config, s: System, a: StoreAction)
    requires PaidInv(s.rows, s.history.tallies) && StoreEnabled(s, a)
    ensures var t := ApplyStore(cfg, s, a); PaidInv(t.rows, t.history.tallies)
  {
  }

  // ---- Publisher steps ----

  /** Row `r` is what recording a failure makes of the row in hand. */
  predicate IsFailed(s: System, w: InstanceId, a: PublisherAction, r: Row)
    requires a.RecordFailure? && IsAt(s, w, Failing)
  {
    && r.attempts == Current(s.workers[w]).attempts + 1
    && (r.status == Failed || (r.status == Pending && r.nextAttemptAt == a.failedAt + a.delayMs))
  }

  /** What one step of a publisher can make of row `id`. */
  ghost predicate MayBecome(cfg: Config, s: System, w: InstanceId, a: PublisherAction, id: RowId, r: Row)
    requires id in s.rows && PublisherEnabled(cfg, s, w, a)
  {
    || r == s.rows[id]
    || (a.ClaimRow? && a.id == id && r == Locked(s.rows[id], w, s.workers[w].now)
        && IsClaimable(s.rows[id], s.workers[w].now, cfg.lockTimeoutMs))
    || (a.Mark? && Owns(s.rows, id, w) && r.status == Published && r.attempts == s.rows[id].attempts)
    || (a.RecordFailure? && Owns(s.rows, id, w) && Current(s.workers[w]).id == id && IsFailed(s, w, a, r))
  }

  lemma RowStep(cfg: Config, s: System, w: InstanceId, a: PublisherAction, id: RowId)
    requires PublisherEnabled(cfg, s, w, a) && id in ApplyPublisher(cfg, s, w, a).rows
    ensures id in s.rows && MayBecome(cfg, s, w, a, id, ApplyPublisher(cfg, s, w, a).rows[id])
  {
  }

  lemma RowStaysSpent(cfg: Config, s: System, w: InstanceId, a: PublisherAction, v: InstanceId, i: int)
    requires LoopsInv(s.clock, s.rows, s.workers) && TakenLaterInv(s.rows, s.workers)
    requires PublisherEnabled(cfg, s, w, a) && cfg.lockTimeoutMs > 0
    requires v in s.workers && s.workers[v].Claiming? && 0 <= i < |s.workers[v].batch|
    ensures var id := s.workers[v].batch[i].id;
      var rows := ApplyPublisher(cfg, s, w, a).rows;
      id in rows ==> SpentOrReset(rows[id], s.workers[v].now)
  {
    var id := s.workers[v].batch[i].id;
    if id in ApplyPublisher(cfg, s, w, a).rows { RowStep(cfg, s, w, a, id); }
    if a.RecordFailure? { DelayBounds(Current(s.workers[w]).attempts + 1, a.delayMs); }
  }

  /** Each entry of a batch was in it before, or is the row just claimed. */
  lemma EntryBefore(cfg: Config, s: System, w: InstanceId, a: PublisherAction, v: InstanceId, i: int)
    requires PublisherEnabled(cfg, s, w, a)
    requires v in ApplyPublisher(cfg, s, w, a).workers && 0 <= i < |ApplyPublisher(cfg, s, w, a).workers[v].batch|
    ensures var k := ApplyPublisher(cfg, s, w, a).workers[v];
      || (v in s.workers && i < |s.workers[v].batch| && k.batch[i] == s.workers[v].batch[i])
      || (v == w && a.ClaimRow? && k.batch[i].id == a.id && k.batch[i].attempts == s.rows[a.id].attempts)
  {
  }

  lemma PublisherKeepsLoops(cfg: Config, s: System, w: InstanceId, a: PublisherAction)
    requires LoopsInv(s.clock, s.rows, s.workers) && TakenLaterInv(s.rows, s.workers)
    requires PublisherEnabled(cfg, s, w, a) && cfg.lockTimeoutMs > 0
    ensures var t := ApplyPublisher(cfg, s, w, a); LoopsInv(s.clock, t.rows, t.workers)
  {
    var t := ApplyPublisher(cfg, s, w, a);
    forall v, i | v in t.workers && t.workers[v].Claiming? && 0 <= i < |t.workers[v].batch|
                  && t.workers[v].batch[i].id in t.rows
      ensures SpentOrReset(t.rows[t.workers[v].batch[i].id], t.workers[v].now)
    {
      EntryBefore(cfg, s, w, a, v, i);
      if v in s.workers && s.workers[v].Claiming? && i < |s.workers[v].batch| { RowStaysSpent(cfg, s, w, a, v, i); }
    }
  }

  /** A lock held after a publisher's step was held before it, or was just taken by that publisher. */
  lemma LockBefore(cfg: Config, s: System, w: InstanceId, a: PublisherAction, v: InstanceId, id: RowId)
    requires PublisherEnabled(cfg, s, w, a) && Owns(ApplyPublisher(cfg, s, w, a).rows, id, v)
    ensures id in s.rows && ApplyPublisher(cfg, s, w, a).rows[id].attempts == s.rows[id].attempts
    ensures if a.ClaimRow? && a.id == id then v == w else Owns(s.rows, id, v)
  {
  }

  lemma PublisherKeepsTakenLater(cfg: Config, s: System, w: InstanceId, a: PublisherAction)
    requires LoopsInv(s.clock, s.rows, s.workers) && TakenLaterInv(s.rows, s.workers) && PublisherEnabled(cfg, s, w, a)
    ensures var t := ApplyPublisher(cfg, s, w, a); TakenLaterInv(t.rows, t.workers)
  {
    var t := ApplyPublisher(cfg, s, w, a);
    forall v, u, i | v in t.workers && t.workers[v].Processing? && u in t.workers && t.workers[u].Claiming?
                     && 0 <= i < |t.workers[u].batch| && Owns(t.rows, t.workers[u].batch[i].id, v)
      ensures t.workers[u].now <= t.workers[v].since
    {
      EntryBefore(cfg, s, w, a, u, i);
      LockBefore(cfg, s, w, a, v, t.workers[u].batch[i].id);
    }
  }

  lemma PublisherKeepsSnapshots(cfg: Config, s: System, w: InstanceId, a: PublisherAction)
    requires LoopsInv(s.clock, s.rows, s.workers) && SnapshotsInv(s.rows, s.workers)
    requires PublisherEnabled(cfg, s, w, a) && cfg.lockTimeoutMs > 0
    ensures var t := ApplyPublisher(cfg, s, w, a); SnapshotsInv(t.rows, t.workers)
  {
    var t := ApplyPublisher(cfg, s, w, a);
    forall v, i | v in t.workers && 0 <= i < |t.workers[v].batch| && Owns(t.rows, t.workers[v].batch[i].id, v)
      ensures t.rows[t.workers[v].batch[i].id].attempts <= t.workers[v].batch[i].attempts
    {
      EntryBefore(cfg, s, w, a, v, i);
      LockBefore(cfg, s, w, a, v, t.workers[v].batch[i].id);
    }
  }

  lemma PublisherKeepsPaid(cfg: Config, s: System, w: InstanceId, a: PublisherAction)
    requires PaidInv(s.rows, s.history.tallies) && SnapshotsInv(s.rows, s.workers) && PublisherEnabled(cfg, s, w, a)
    ensures var t := ApplyPublisher(cfg, s, w, a); PaidInv(t.rows, t.history.tallies)
  {
    var t := ApplyPublisher(cfg, s, w, a);
    forall id | id in t.rows ensures id in t.history.tallies && PaidFor(t.rows[id], t.history.tallies[id]) {
      RowStep(cfg, s, w, a, id);
      assert PaidFor(s.rows[id], s.history.tallies[id]);
    }
  }

  // ---- Runs ----

  lemma AccountsStep(cfg: Config, s: System, a: Action)
    requires Inv(cfg, s) && AccountsInv(s) && ValidConfig(cfg) && Enabled(cfg, s, a)
    ensures AccountsInv(Apply(cfg, s, a))
  {
    match a {
      case Store(b) =>
        StoreKeepsLoops(cfg, s, b);
        StoreKeepsOwned(cfg, s, b);
        StoreKeepsPaid(cfg, s, b);
      case Publisher(w, b) =>
        PublisherKeepsLoops(cfg, s, w, b);
        PublisherKeepsTakenLater(cfg, s, w, b);
        PublisherKeepsSnapshots(cfg, s, w, b);
        PublisherKeepsPaid(cfg, s, w, b);
      case Stream(_) =>
    }
  }

  lemma {:induction false} AccountsRun(cfg: Config, s: System, actions: seq<Action>, t: System)
    requires Inv(cfg, s) && AccountsInv(s) && ValidConfig(cfg) && Reaches(cfg, s, actions, t)
    ensures Inv(cfg, t) && AccountsInv(t)
    decreases |actions|
  {
    if actions != [] {
      InvStep(cfg, s, actions[0]);
      AccountsStep(cfg, s, actions[0]);
      AccountsRun(cfg, Apply(cfg, s, actions[0]), actions[1..], t);
    }
  }

  /** The tally of a row that has expired is the last it had. */
  lemma TallyKept(cfg: Config, s: System, a: Action, id: RowId)
    requires Enabled(cfg, s, a) && id in Apply(cfg, s, a).history.tallies && id !in Apply(cfg, s, a).rows
    ensures id in s.history.tallies && s.history.tallies[id] == Apply(cfg, s, a).history.tallies[id]
  {
  }

  predicate WithinBound(t: Tally, maxAttempts: nat) {
    t.claims <= maxAttempts + t.takeovers
  }

  ghost predicate BoundInv(tallies: map<RowId, Tally>, maxAttempts: nat) {
    forall id :: id in tallies ==> WithinBound(tallies[id], maxAttempts)
  }

  lemma BoundStep(cfg: Config, s: System, a: Action)
    requires Enabled(cfg, s, a) && BoundInv(s.history.tallies, cfg.maxAttempts)
    requires var t := Apply(cfg, s, a); AllWellShaped(t.rows, cfg.maxAttempts) && PaidInv(t.rows, t.history.tallies)
    ensures BoundInv(Apply(cfg, s, a).history.tallies, cfg.maxAttempts)
  {
    var t := Apply(cfg, s, a);
    forall id | id in t.history.tallies ensures WithinBound(t.history.tallies[id], cfg.maxAttempts) {
      if id in t.rows {
        assert WellShaped(t.rows[id], cfg.maxAttempts) && PaidFor(t.rows[id], t.history.tallies[id]);
      } else {
        TallyKept(cfg, s, a, id);
      }
    }
  }

  lemma {:induction false} BoundRun(cfg: Config, s: System, actions: seq<Action>, t: System)
    requires Inv(cfg, s) && AccountsInv(s) && BoundInv(s.history.tallies, cfg.maxAttempts) && ValidConfig(cfg)
    requires Reaches(cfg, s, actions, t)
    ensures BoundInv(t.history.tallies, cfg.maxAttempts)
    decreases |actions|
  {
    if actions != [] {
      InvStep(cfg, s, actions[0]);
      AccountsStep(cfg, s, actions[0]);
      BoundStep(cfg, s, actions[0]);
      BoundRun(cfg, Apply(cfg, s, actions[0]), actions[1..], t);
    }
  }

  /** On every run, the claims of a row since it was created or redriven are at most the maximum of
      attempts, and one more for each time an expired lock on it was taken over; that stays so when the
      row has expired. */
  lemma ClaimsBounded(cfg: Config, s: System, actions: seq<Action>, t: System, id: RowId)
    requires ValidConfig(cfg) && Init(s) && Reaches(cfg, s, actions, t)
    ensures id in t.rows ==> id in t.history.tallies && PaidFor(t.rows[id], t.history.tallies[id])
    ensures id in t.history.tallies ==>
      t.history.tallies[id].claims <= cfg.maxAttempts + t.history.tallies[id].takeovers
  {
    InvInit(cfg, s);
    AccountsRun(cfg, s, actions, t);
    BoundRun(cfg, s, actions, t);
    assert id in t.history.tallies ==> WithinBound(t.history.tallies[id], cfg.maxAttempts);
  }

  /** On every run, a row that can be claimed is pending and due, or its lease has run out, by the reading of
      the clock that the claim loop began with, and so by the clock; and the claim locks it as of that reading. */
  lemma ClaimsOnlyWhatIsFree(cfg: Config, s: System, actions: seq<Action>, t: System, w: InstanceId, id: RowId)
    requires ValidConfig(cfg) && Init(s) && Reaches(cfg, s, actions, t)
    requires PublisherEnabled(cfg, t, w, ClaimRow(id))
    ensures id in t.rows && t.workers[w].now <= t.clock
    ensures t.rows[id].status == Pending ==> t.rows[id].nextAttemptAt <= t.workers[w].now
    ensures t.rows[id].status != Pending ==>
      && t.rows[id].status == Publishing && t.rows[id].lockedAt.Some?
      && t.rows[id].lockedAt.value + cfg.lockTimeoutMs <= t.workers[w].now
    ensures var r := t.rows[id];
      ApplyPublisher(cfg, t, w, ClaimRow(id)).rows
      == t.rows[id := Row(r.event, r.key, Publishing, r.attempts, r.nextAttemptAt, Some(w), Some(t.workers[w].now),
                          r.lastError, r.createdAt, r.publishedAt)]
  {
    InvInit(cfg, s);
    AccountsRun(cfg, s, actions, t);
  }

  /** So a lease excludes everyone: until it has run out, nobody can claim the row. */
  lemma LeaseExcludes(cfg: Config, s: System, actions: seq<Action>, t: System, w: InstanceId, id: RowId)
    requires ValidConfig(cfg) && Init(s) && Reaches(cfg, s, actions, t)
    requires id in t.rows && t.rows[id].status == Publishing && t.rows[id].lockedAt.Some?
    requires t.clock < t.rows[id].lockedAt.value + cfg.lockTimeoutMs
    ensures !PublisherEnabled(cfg, t, w, ClaimRow(id))
  {
    if PublisherEnabled(cfg, t, w, ClaimRow(id)) { ClaimsOnlyWhatIsFree(cfg, s, actions, t, w, id); }
  }

  lemma CurrentIsOk(cfg: Config, s: System, w: InstanceId, stage: Stage)
    requires EntriesInv(cfg, s.messages, s.issuedIds, s.rows, s.workers) && IsAt(s, w, stage)
    ensures Current(s.workers[w]).attempts < cfg.maxAttempts
  {
    assert EntryOk(cfg, s.messages, s.issuedIds, s.rows, Current(s.workers[w]));
  }

  lemma FailureAdvances(cfg: Config, s: System, w: InstanceId, a: PublisherAction)
    requires SnapshotsInv(s.rows, s.workers)
    requires a.RecordFailure? && a.fault != ErrorBefore && PublisherEnabled(cfg, s, w, a)
    requires Owns(s.rows, Current(s.workers[w]).id, w)
    ensures var e := Current(s.workers[w]);
      var rows := ApplyPublisher(cfg, s, w, a).rows;
      && rows.Keys == s.rows.Keys && (forall x :: x in rows && x != e.id ==> rows[x] == s.rows[x])
      && s.rows[e.id].attempts + 1 <= rows[e.id].attempts == e.attempts + 1
  {
  }

  /** When a failed row is due only after the moment of the update that says so: exactly when it is to be
      retried and the update takes less time than the wait. */
  lemma DueExact(cfg: Config, s: System, w: InstanceId, a: PublisherAction)
    requires a.RecordFailure? && a.fault != ErrorBefore && PublisherEnabled(cfg, s, w, a)
    requires Owns(s.rows, Current(s.workers[w]).id, w)
    ensures var e := Current(s.workers[w]);
      ApplyPublisher(cfg, s, w, a).rows[e.id].nextAttemptAt > s.clock
      <==> e.attempts + 1 < cfg.maxAttempts && s.clock < a.failedAt + a.delayMs
  {
  }

  /** No attempt is lost on any run: a failure update that matches raises the row's attempts, by at
      least one, to one more than its snapshot's, and changes no other row. */
  lemma FailureNeverLoses(cfg: Config, s: System, actions: seq<Action>, t: System, w: InstanceId, a: PublisherAction)
    requires ValidConfig(cfg) && Init(s) && Reaches(cfg, s, actions, t)
    requires a.RecordFailure? && a.fault != ErrorBefore && PublisherEnabled(cfg, t, w, a)
    requires Owns(t.rows, Current(t.workers[w]).id, w)
    ensures var e := Current(t.workers[w]);
      var rows := ApplyPublisher(cfg, t, w, a).rows;
      && rows.Keys == t.rows.Keys && (forall x :: x in rows && x != e.id ==> rows[x] == t.rows[x])
      && t.rows[e.id].attempts + 1 <= rows[e.id].attempts == e.attempts + 1 <= cfg.maxAttempts
  {
    InvInit(cfg, s);
    AccountsRun(cfg, s, actions, t);
    FailureAdvances(cfg, t, w, a);
    CurrentIsOk(cfg, t, w, Failing);
  }
}
