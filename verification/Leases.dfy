/** Runs whose operator redrives read the clock no earlier than the failures they reset. On them a
    publisher never claims a row twice in one batch, so every matching update works on the true
    attempts, and claims, attempts and lock takeovers balance exactly. */
module Leases {
  import opened Wrappers
  import opened OutboxRows
  import opened RetryDelays
  import opened Protocol
  import opened Delivery
  import opened Accounts
  import opened Fencing

  /** A redrive's `now` is not before the failure of any row it resets. */
  predicate Prompt(s: System, a: Action) {
    a.Store? && a.store.RedriveRows? ==>
      forall id :: id in a.store.ids && id in s.rows && s.rows[id].status == Failed ==>
        s.rows[id].nextAttemptAt <= a.store.now
  }

  /** `Reaches`, by prompt steps only. */
  ghost predicate PromptRun(cfg: Config, s: System, actions: seq<Action>, t: System)
    decreases |actions|
  {
    if actions == [] then s == t
    else && Enabled(cfg, s, actions[0]) && Prompt(s, actions[0])
         && PromptRun(cfg, Apply(cfg, s, actions[0]), actions[1..], t)
  }

  /** A claim loop of `w` that started at `now` cannot find this row again. */
  predicate OutOfReach(r: Row, w: InstanceId, now: int) {
    match r.status
    case Publishing =>
      r.lockedAt.Some? && (r.lockedAt.value > now || (r.lockedAt.value == now && r.lockedBy == Some(w)))
    case Published => true
    case _ => r.nextAttemptAt > now
  }

  /** No lock is dated in the future; nor, once its owner has finished claiming, after that. */
  ghost predicate LocksInv(clock: int, rows: Table, workers: map<InstanceId, Worker>) {
    && (forall id :: id in rows && rows[id].lockedAt.Some? ==> rows[id].lockedAt.value <= clock)
    && (forall w, id :: w in workers && workers[w].Processing? && Owns(rows, id, w) && rows[id].lockedAt.Some? ==>
          rows[id].lockedAt.value <= workers[w].since)
  }

  ghost predicate ReachInv(clock: int, rows: Table, workers: map<InstanceId, Worker>) {
    forall w :: w in workers && workers[w].Claiming? ==>
      && workers[w].now <= clock
      && forall i :: 0 <= i < |workers[w].batch| && workers[w].batch[i].id in rows ==>
           OutOfReach(rows[workers[w].batch[i].id], w, workers[w].now)
  }

  predicate DistinctIds(batch: seq<Entry>) {
    forall i, j :: 0 <= i < j < |batch| ==> batch[i].id != batch[j].id
  }

  ghost predicate DistinctInv(workers: map<InstanceId, Worker>) {
    forall w :: w in workers ==> DistinctIds(workers[w].batch)
  }

  /** Claims since the row was created or redriven: one for each attempt, one for each takeover of
      an expired lock, and the one that holds, or published, the row now. */
  predicate Balanced(r: Row, t: Tally) {
    t.claims == t.takeovers + r.attempts + if r.status == Publishing || r.status == Published then 1 else 0
  }

  ghost predicate TallyInv(rows: Table, tallies: map<RowId, Tally>) {
    forall id :: id in rows ==> id in tallies && Balanced(rows[id], tallies[id])
  }

  ghost predicate PromptInv(cfg: Config, s: System) {
    && FencedInv(cfg, s)
    && LocksInv(s.clock, s.rows, s.workers) && ReachInv(s.clock, s.rows, s.workers)
    && DistinctInv(s.workers) && TallyInv(s.rows, s.history.tallies)
  }

  // ---- Store steps ----

  lemma StoreKeepsReach(cfg: Config, s: System, a: StoreAction)
    requires LocksInv(s.clock, s.rows, s.workers) && ReachInv(s.clock, s.rows, s.workers)
    requires EntriesInv(cfg, s.messages, s.issuedIds, s.rows, s.workers)
    requires StoreEnabled(s, a) && Prompt(s, Store(a))
    ensures var t := ApplyStore(cfg, s, a); LocksInv(t.clock, t.rows, s.workers) && ReachInv(t.clock, t.rows, s.workers)
  {
    var t := ApplyStore(cfg, s, a);
    forall w, i | w in s.workers && s.workers[w].Claiming? && 0 <= i < |s.workers[w].batch|
                  && s.workers[w].batch[i].id in t.rows
      ensures OutOfReach(t.rows[s.workers[w].batch[i].id], w, s.workers[w].now)
    {
      assert EntryOk(cfg, s.messages, s.issuedIds, s.rows, s.workers[w].batch[i]);
    }
  }

  lemma StoreKeepsTally(cfg: Config, s: System, a: StoreAction)
    requires TallyInv(s.rows, s.history.tallies) && StoreEnabled(s, a)
    ensures var t := ApplyStore(cfg, s, a); TallyInv(t.rows, t.history.tallies)
  {
  }

  // ---- Publisher steps ----

  /** A row out of `v`'s reach stays so whatever another instance does. */
  lemma OthersKeepReach(cfg: Config, s: System, w: InstanceId, a: PublisherAction, v: InstanceId, id: RowId)
    requires LocksInv(s.clock, s.rows, s.workers) && PublisherEnabled(cfg, s, w, a) && cfg.lockTimeoutMs > 0
    requires w in s.workers && s.workers[w].Claiming? ==> s.workers[w].now <= s.clock
    requires v in s.workers && s.workers[v].Claiming? && v != w
    requires id in s.rows && OutOfReach(s.rows[id], v, s.workers[v].now)
    ensures OutOfReach(ApplyPublisher(cfg, s, w, a).rows[id], v, s.workers[v].now)
  {
    if a.RecordFailure? { DelayBounds(Current(s.workers[w]).attempts + 1, a.delayMs); }
  }

  /** The claim loop of `w` never finds a row of its own batch. */
  lemma ClaimIsNew(cfg: Config, s: System, w: InstanceId, id: RowId, i: int)
    requires ReachInv(s.clock, s.rows, s.workers) && cfg.lockTimeoutMs > 0
    requires PublisherEnabled(cfg, s, w, ClaimRow(id)) && 0 <= i < |s.workers[w].batch|
    ensures s.workers[w].batch[i].id != id
  {
  }

  lemma LockKept(cfg: Config, s: System, w: InstanceId, a: PublisherAction, v: InstanceId, id: RowId)
    requires PublisherEnabled(cfg, s, w, a) && Owns(ApplyPublisher(cfg, s, w, a).rows, id, v)
    requires !(a.ClaimRow? && a.id == id)
    ensures Owns(s.rows, id, v) && s.rows[id].lockedAt == ApplyPublisher(cfg, s, w, a).rows[id].lockedAt
  {
  }

  lemma PublisherKeepsLocks(cfg: Config, s: System, w: InstanceId, a: PublisherAction)
    requires LocksInv(s.clock, s.rows, s.workers) && ReachInv(s.clock, s.rows, s.workers)
    requires PublisherEnabled(cfg, s, w, a)
    ensures var t := ApplyPublisher(cfg, s, w, a); LocksInv(s.clock, t.rows, t.workers)
  {
    var t := ApplyPublisher(cfg, s, w, a);
    forall v, id | v in t.workers && t.workers[v].Processing? && Owns(t.rows, id, v) && t.rows[id].lockedAt.Some?
      ensures t.rows[id].lockedAt.value <= t.workers[v].since
    {
      if !(a.ClaimRow? && a.id == id) { LockKept(cfg, s, w, a, v, id); }
    }
  }

  lemma PublisherKeepsReach(cfg: Config, s: System, w: InstanceId, a: PublisherAction)
    requires LocksInv(s.clock, s.rows, s.workers) && ReachInv(s.clock, s.rows, s.workers)
    requires PublisherEnabled(cfg, s, w, a) && cfg.lockTimeoutMs > 0
    ensures var t := ApplyPublisher(cfg, s, w, a); ReachInv(s.clock, t.rows, t.workers)
  {
    var t := ApplyPublisher(cfg, s, w, a);
    forall v, i | v in t.workers && t.workers[v].Claiming? && 0 <= i < |t.workers[v].batch|
                  && t.workers[v].batch[i].id in t.rows
      ensures OutOfReach(t.rows[t.workers[v].batch[i].id], v, t.workers[v].now)
    {
      if v != w {
        assert t.workers[v] == s.workers[v];
        OthersKeepReach(cfg, s, w, a, v, t.workers[v].batch[i].id);
      } else {
        assert a.ClaimRow?;
        if i < |s.workers[w].batch| {
          assert t.workers[w].batch[i] == s.workers[w].batch[i];
          ClaimIsNew(cfg, s, w, a.id, i);
        }
      }
    }
  }

  lemma PublisherKeepsDistinct(cfg: Config, s: System, w: InstanceId, a: PublisherAction)
    requires DistinctInv(s.workers) && ReachInv(s.clock, s.rows, s.workers)
    requires PublisherEnabled(cfg, s, w, a) && cfg.lockTimeoutMs > 0
    ensures DistinctInv(ApplyPublisher(cfg, s, w, a).workers)
  {
    var t := ApplyPublisher(cfg, s, w, a);
    BatchesGrow(cfg, s, w, a);
    if a.ClaimRow? {
      forall i | 0 <= i < |s.workers[w].batch| ensures s.workers[w].batch[i].id != a.id {
        ClaimIsNew(cfg, s, w, a.id, i);
      }
    }
  }

  /** With distinct ids every entry is the latest of its row, so the entry in hand is true. */
  lemma CurrentIsTrue(s: System, w: InstanceId, stage: Stage)
    requires FenceInv(s.rows, s.workers) && DistinctInv(s.workers)
    requires IsAt(s, w, stage) && Owns(s.rows, Current(s.workers[w]).id, w)
    ensures s.rows[Current(s.workers[w]).id].attempts == Current(s.workers[w]).attempts
  {
    assert IsLatest(s.workers[w].batch, s.workers[w].next);
  }

  lemma PublisherKeepsTally(cfg: Config, s: System, w: InstanceId, a: PublisherAction)
    requires TallyInv(s.rows, s.history.tallies) && FenceInv(s.rows, s.workers) && DistinctInv(s.workers)
    requires PublisherEnabled(cfg, s, w, a)
    ensures var t := ApplyPublisher(cfg, s, w, a); TallyInv(t.rows, t.history.tallies)
  {
    if a.RecordFailure? && Owns(s.rows, Current(s.workers[w]).id, w) { CurrentIsTrue(s, w, Failing); }
  }

  // ---- Runs ----

  lemma PromptStep(cfg: Config, s: System, a: Action)
    requires PromptInv(cfg, s) && ValidConfig(cfg) && Enabled(cfg, s, a) && Prompt(s, a)
    ensures PromptInv(cfg, Apply(cfg, s, a))
  {
    FencedStep(cfg, s, a);
    match a {
      case Store(b) => StoreKeepsReach(cfg, s, b); StoreKeepsTally(cfg, s, b);
      case Publisher(w, b) =>
        PublisherKeepsLocks(cfg, s, w, b);
        PublisherKeepsReach(cfg, s, w, b);
        PublisherKeepsDistinct(cfg, s, w, b);
        PublisherKeepsTally(cfg, s, w, b);
      case Stream(_) =>
    }
  }

  lemma {:induction false} PromptRunKeeps(cfg: Config, s: System, actions: seq<Action>, t: System)
    requires PromptInv(cfg, s) && ValidConfig(cfg) && PromptRun(cfg, s, actions, t)
    ensures PromptInv(cfg, t)
    decreases |actions|
  {
    if actions != [] {
      PromptStep(cfg, s, actions[0]);
      PromptRunKeeps(cfg, Apply(cfg, s, actions[0]), actions[1..], t);
    }
  }

  /** The step counts one more failed attempt of the row in hand, dates it by the time read before
      the update, and changes no other row. */
  ghost predicate CountedOnce(cfg: Config, s: System, w: InstanceId, a: PublisherAction)
    requires a.RecordFailure? && PublisherEnabled(cfg, s, w, a) && Current(s.workers[w]).id in s.rows
  {
    var id := Current(s.workers[w]).id;
    var after := ApplyPublisher(cfg, s, w, a).rows;
    && after.Keys == s.rows.Keys
    && after[id].attempts == s.rows[id].attempts + 1
    && after[id].status == (if s.rows[id].attempts + 1 == cfg.maxAttempts then Failed else Pending)
    && after[id].nextAttemptAt == a.failedAt + (if after[id].status == Failed then 0 else a.delayMs)
    && forall x :: x in after && x != id ==> after[x] == s.rows[x]
  }

  /** What a failure update that matches needs to know of its snapshot and its delay. */
  lemma TrueSnapshot(cfg: Config, s: System, w: InstanceId, a: PublisherAction)
    requires FenceInv(s.rows, s.workers) && DistinctInv(s.workers)
    requires EntriesInv(cfg, s.messages, s.issuedIds, s.rows, s.workers)
    requires a.RecordFailure? && PublisherEnabled(cfg, s, w, a)
    requires Owns(s.rows, Current(s.workers[w]).id, w)
    ensures s.rows[Current(s.workers[w]).id].attempts == Current(s.workers[w]).attempts < cfg.maxAttempts
    ensures 800 <= a.delayMs <= 360_000
  {
    CurrentIsTrue(s, w, Failing);
    CurrentIsOk(cfg, s, w, Failing);
    DelayBounds(Current(s.workers[w]).attempts + 1, a.delayMs);
  }

  lemma TrueFailureCounts(cfg: Config, s: System, w: InstanceId, a: PublisherAction)
    requires a.RecordFailure? && a.fault != ErrorBefore && PublisherEnabled(cfg, s, w, a)
    requires Owns(s.rows, Current(s.workers[w]).id, w)
    requires s.rows[Current(s.workers[w]).id].attempts == Current(s.workers[w]).attempts < cfg.maxAttempts
    ensures CountedOnce(cfg, s, w, a)
  {
  }

  /** In the end of a prompt run: what FailureCountsOnce rests on. */
  lemma PromptRunFences(cfg: Config, s: System, actions: seq<Action>, t: System)
    requires ValidConfig(cfg) && Init(s) && PromptRun(cfg, s, actions, t)
    ensures FenceInv(t.rows, t.workers) && DistinctInv(t.workers)
    ensures EntriesInv(cfg, t.messages, t.issuedIds, t.rows, t.workers)
  {
    InvInit(cfg, s);
    PromptRunKeeps(cfg, s, actions, t);
  }

  /** No lost update: on a prompt run, whenever the owner filter of a failure update matches, the
      snapshot it works on has the row's true attempts, and the update adds exactly one to them. A
      retry is due strictly after the time read for it, by 0.8 to 360 seconds. */
  lemma FailureCountsOnce(cfg: Config, s: System, actions: seq<Action>, t: System, w: InstanceId, a: PublisherAction)
    requires ValidConfig(cfg) && Init(s) && PromptRun(cfg, s, actions, t)
    requires a.RecordFailure? && a.fault != ErrorBefore && PublisherEnabled(cfg, t, w, a)
    requires Owns(t.rows, Current(t.workers[w]).id, w)
    ensures CountedOnce(cfg, t, w, a) && 800 <= a.delayMs <= 360_000
  {
    PromptRunFences(cfg, s, actions, t);
    TrueSnapshot(cfg, t, w, a);
    TrueFailureCounts(cfg, t, w, a);
  }

  /** On a prompt run the claims of a row since it was created or redriven are exactly its attempts, the
      takeovers of its lock, and the current claim. (`Accounts.ClaimsBounded` has the bound for every
      run.) */
  lemma ClaimsBalance(cfg: Config, s: System, actions: seq<Action>, t: System, id: RowId)
    requires ValidConfig(cfg) && Init(s) && PromptRun(cfg, s, actions, t) && id in t.rows
    ensures id in t.history.tallies && Balanced(t.rows[id], t.history.tallies[id])
    ensures t.history.tallies[id].claims <= cfg.maxAttempts + t.history.tallies[id].takeovers
  {
    InvInit(cfg, s);
    PromptRunKeeps(cfg, s, actions, t);
    assert WellShaped(t.rows[id], cfg.maxAttempts);
  }
}
