/** With one publisher and no database errors the outbox drains: every attempt uses up one of a
    finite supply, and as long as a row is unfinished and due, there is an attempt. */
module Draining {
  import opened OutboxRows
  import opened OutboxRepository
  import opened Protocol
  import opened Publisher

  predicate Terminal(r: Row) {
    r.status == Published || r.status == Failed
  }

  /** The attempts a row may still use. */
  function AttemptsLeft(r: Row, maxAttempts: nat): nat {
    if Terminal(r) || r.attempts > maxAttempts then 0 else maxAttempts - r.attempts
  }

  ghost function Supply(t: Table, maxAttempts: nat): nat {
    if t == map[] then 0 else
    var id :| id in t;
    AttemptsLeft(t[id], maxAttempts) + Supply(t - {id}, maxAttempts)
  }

  lemma {:induction false} SupplySplit(t: Table, id: RowId, maxAttempts: nat)
    requires id in t
    ensures Supply(t, maxAttempts) == AttemptsLeft(t[id], maxAttempts) + Supply(t - {id}, maxAttempts)
    decreases |t|
  {
    var x :| x in t && Supply(t, maxAttempts) == AttemptsLeft(t[x], maxAttempts) + Supply(t - {x}, maxAttempts);
    if x != id {
      SupplySplit(t - {x}, id, maxAttempts);
      SupplySplit(t - {id}, x, maxAttempts);
      assert t - {x} - {id} == t - {id} - {x};
    }
  }

  lemma SupplyUpdate(t: Table, id: RowId, r: Row, maxAttempts: nat)
    requires id in t
    ensures Supply(t[id := r], maxAttempts) + AttemptsLeft(t[id], maxAttempts)
         == Supply(t, maxAttempts) + AttemptsLeft(r, maxAttempts)
  {
    SupplySplit(t, id, maxAttempts);
    SupplySplit(t[id := r], id, maxAttempts);
    assert t[id := r] - {id} == t - {id};
  }

  lemma OneMore(n: nat, k: nat)
    ensures (n + 1) * k == n * k + k
  {
  }

  lemma {:induction false} SupplyBound(t: Table, maxAttempts: nat)
    ensures Supply(t, maxAttempts) <= |t| * maxAttempts
    decreases |t|
  {
    if t != map[] {
      var id :| id in t;
      SupplySplit(t, id, maxAttempts);
      SupplyBound(t - {id}, maxAttempts);
      assert t.Keys == (t - {id}).Keys + {id};
      OneMore(|t - {id}|, maxAttempts);
    }
  }

  lemma {:induction false} SupplyEmpty(t: Table, maxAttempts: nat)
    requires AllWellShaped(t, maxAttempts)
    ensures Supply(t, maxAttempts) == 0 <==> forall id :: id in t ==> Terminal(t[id])
    decreases |t|
  {
    if t != map[] {
      var id :| id in t;
      SupplySplit(t, id, maxAttempts);
      assert AllWellShaped(t - {id}, maxAttempts);
      SupplyEmpty(t - {id}, maxAttempts);
      assert WellShaped(t[id], maxAttempts);
      assert forall x :: x in t ==> x == id || (x in t - {id} && (t - {id})[x] == t[x]);
    }
  }

  /** Locking rows uses up nothing. */
  lemma {:induction false} SupplyLocked(t: Table, ids: seq<RowId>, owner: InstanceId, now: int, maxAttempts: nat)
    requires forall id :: id in ids ==> id in t && !Terminal(t[id])
    ensures Supply(AllLocked(t, ids, owner, now), maxAttempts) == Supply(t, maxAttempts)
  {
    if ids == [] {
      assert AllLocked(t, ids, owner, now) == t;
    } else {
      var n := |ids| - 1;
      var u := AllLocked(t, ids[..n], owner, now);
      SupplyLocked(t, ids[..n], owner, now, maxAttempts);
      SupplyUpdate(u, ids[n], Locked(u[ids[n]], owner, now), maxAttempts);
      assert ids == ids[..n] + [ids[n]];
      assert AllLocked(t, ids, owner, now) == u[ids[n] := Locked(u[ids[n]], owner, now)];
    }
  }

  predicate NoFaults(a: Attempt) {
    a.markFault == NoFault && a.failureFault == NoFault
  }

  /** An attempt on a row the publisher owns always matches, and uses up at least one attempt. */
  lemma AttemptUses(t: Table, e: OutboxEvent, owner: InstanceId, maxAttempts: nat, a: Attempt)
    requires AllWellShaped(t, maxAttempts) && NoFaults(a)
    requires Owns(t, e.id, owner) && t[e.id] == e.row
    ensures var u := RowsAttempted(t, e, owner, maxAttempts, a);
      && AllWellShaped(u, maxAttempts) && u.Keys == t.Keys
      && (forall id :: id in t && id != e.id ==> u[id] == t[id])
      && u[e.id].status == (if a.acknowledged then Published
                            else if e.row.attempts + 1 == maxAttempts then Failed else Pending)
      && Supply(u, maxAttempts) < Supply(t, maxAttempts)
  {
    var u := RowsAttempted(t, e, owner, maxAttempts, a);
    SupplyUpdate(t, e.id, u[e.id], maxAttempts);
    assert u == t[e.id := u[e.id]];
    assert WellShaped(t[e.id], maxAttempts);
  }

  lemma {:induction false} BatchUses(t: Table, events: seq<OutboxEvent>, owner: InstanceId, maxAttempts: nat,
                                     script: seq<Attempt>)
    requires AllWellShaped(t, maxAttempts) && |events| <= |script|
    requires forall k :: 0 <= k < |script| ==> NoFaults(script[k])
    requires forall k :: 0 <= k < |events| ==> Owns(t, events[k].id, owner) && t[events[k].id] == events[k].row
    requires forall i, j :: 0 <= i < j < |events| ==> events[i].id != events[j].id
    ensures var u := RowsAfter(t, events, owner, maxAttempts, script);
      && AllWellShaped(u, maxAttempts) && u.Keys == t.Keys
      && (forall id :: id in t && (forall k :: 0 <= k < |events| ==> events[k].id != id) ==> u[id] == t[id])
      && Supply(u, maxAttempts) + |events| <= Supply(t, maxAttempts)
  {
    if events != [] {
      var n := |events| - 1;
      BatchUses(t, events[..n], owner, maxAttempts, script);
      var u := RowsAfter(t, events[..n], owner, maxAttempts, script);
      assert forall k :: 0 <= k < n ==> events[..n][k] == events[k];
      AttemptUses(u, events[n], owner, maxAttempts, script[n]);
    }
  }

  ghost predicate CleanRoundBy(before: Table, after: Table, count: nat, now: int, config: Config,
                               owner: InstanceId, ids: seq<RowId>, claimed: seq<OutboxEvent>, script: seq<Attempt>)
  {
    && BatchClaimed(before, ids, claimed, owner, now, config)
    && |claimed| == count <= |script| && (forall k :: 0 <= k < |script| ==> NoFaults(script[k]))
    && after == RowsAfter(AllLocked(before, ids, owner, now), claimed, owner, config.maxAttempts, script)
  }

  /** One error-free run from `before` to `after` that attempts `count` events. */
  ghost predicate CleanRound(before: Table, after: Table, count: nat, now: int, config: Config) {
    exists owner, ids, claimed, script :: CleanRoundBy(before, after, count, now, config, owner, ids, claimed, script)
  }

  /** A run of `PublisherService.RunOnce` whose database calls all succeed is such a run: it attempts all
      that it claims. */
  lemma RunIsCleanRound(run: Run, before: Table, owner: InstanceId, now: int, config: Config, script: seq<Attempt>)
    requires ValidRun(run, before, owner, now, config, script) && run.end != ClaimsFailed
    requires forall k :: 0 <= k < |script| ==> NoFaults(script[k])
    ensures run.end == AllDone && run.done == |run.claimed|
    ensures CleanRound(before, RowsAfter(AllLocked(before, run.ids, owner, now), run.claimed[..run.done], owner,
                                         config.maxAttempts, script), |run.claimed|, now, config)
  {
    assert run.claimed[..|run.claimed|] == run.claimed;
    var after := RowsAfter(AllLocked(before, run.ids, owner, now), run.claimed, owner, config.maxAttempts, script);
    assert CleanRoundBy(before, after, |run.claimed|, now, config, owner, run.ids, run.claimed, script);
  }

  lemma ClaimedOwned(before: Table, ids: seq<RowId>, claimed: seq<OutboxEvent>, owner: InstanceId, now: int,
                     config: Config)
    requires BatchClaimed(before, ids, claimed, owner, now, config) && AllWellShaped(before, config.maxAttempts)
    ensures var locked := AllLocked(before, ids, owner, now);
      && AllWellShaped(locked, config.maxAttempts) && locked.Keys == before.Keys
      && (forall id :: id in ids ==> id in before && !Terminal(before[id]))
      && (forall k :: 0 <= k < |claimed| ==>
            Owns(locked, claimed[k].id, owner) && locked[claimed[k].id] == claimed[k].row)
      && (forall i, j :: 0 <= i < j < |claimed| ==> claimed[i].id != claimed[j].id)
      && (config.batchSize >= 1 && ids == [] ==> ClaimableIds(before, now, config.lockTimeoutMs) == {})
  {
    var locked := AllLocked(before, ids, owner, now);
    FirstClaimedIds(before, ids, locked, owner, now, config.lockTimeoutMs, config.batchSize);
    forall id | id in ids ensures id in before && !Terminal(before[id]) {
      assert id in ClaimableIds(before, now, config.lockTimeoutMs);
    }
  }

  lemma RoundUses(before: Table, after: Table, count: nat, now: int, config: Config)
    requires CleanRound(before, after, count, now, config) && AllWellShaped(before, config.maxAttempts)
    requires config.batchSize >= 1
    ensures AllWellShaped(after, config.maxAttempts) && after.Keys == before.Keys
    ensures Supply(after, config.maxAttempts) + count <= Supply(before, config.maxAttempts)
    ensures count == 0 ==> ClaimableIds(before, now, config.lockTimeoutMs) == {}
  {
    var owner, ids, claimed, script :| CleanRoundBy(before, after, count, now, config, owner, ids, claimed, script);
    ClaimedOwned(before, ids, claimed, owner, now, config);
    SupplyLocked(before, ids, owner, now, config.maxAttempts);
    BatchUses(AllLocked(before, ids, owner, now), claimed, owner, config.maxAttempts, script);
  }

  /** Every unfinished row is claimable at `now`: each retry is due and each old lock has expired. */
  predicate AllDue(t: Table, now: int, config: Config) {
    forall id :: id in t && !Terminal(t[id]) ==> id in ClaimableIds(t, now, config.lockTimeoutMs)
  }

  ghost predicate RoundAt(tables: seq<Table>, counts: seq<nat>, nows: seq<int>, config: Config, k: nat)
    requires k < |counts| && |tables| == |counts| + 1 == |nows| + 1
  {
    CleanRound(tables[k], tables[k + 1], counts[k], nows[k], config)
  }

  /** `tables` are the tables before, between and after error-free runs that begin at times `nows` and
      attempt `counts` events. What is due when is left open. */
  ghost predicate CleanRounds(tables: seq<Table>, counts: seq<nat>, nows: seq<int>, config: Config) {
    && |tables| == |counts| + 1 == |nows| + 1
    && forall k :: 0 <= k < |counts| ==> RoundAt(tables, counts, nows, config, k)
  }

  /** The events that the first `k` runs attempt. */
  function Sum(counts: seq<nat>, k: nat): nat
    requires k <= |counts|
  {
    if k == 0 then 0 else Sum(counts, k - 1) + counts[k - 1]
  }

  /** How many of the first `k` runs attempt anything, or find everything due that is unfinished. */
  function Effective(tables: seq<Table>, counts: seq<nat>, nows: seq<int>, config: Config, k: nat): nat
    requires k <= |counts| <= |tables| && k <= |nows|
  {
    if k == 0 then 0 else
    Effective(tables, counts, nows, config, k - 1)
    + if counts[k - 1] > 0 || AllDue(tables[k - 1], nows[k - 1], config) then 1 else 0
  }

  /** Table `last` is what is left of `first` after runs that attempted `sum` events and of which
      `effective` brought the end nearer. */
  ghost predicate UsedUp(first: Table, last: Table, sum: nat, effective: nat, maxAttempts: nat) {
    && AllWellShaped(last, maxAttempts) && last.Keys == first.Keys
    && Supply(last, maxAttempts) + sum <= Supply(first, maxAttempts)
    && (Supply(last, maxAttempts) == 0 || Supply(last, maxAttempts) + effective <= Supply(first, maxAttempts))
  }

  /** A run that attempts something, or finds everything `due`, brings the end nearer. */
  ghost predicate Advances(before: Table, after: Table, count: nat, due: bool, maxAttempts: nat) {
    AllWellShaped(before, maxAttempts) ==> UsedUp(before, after, count, if count > 0 || due then 1 else 0, maxAttempts)
  }

  lemma RoundAdvances(before: Table, after: Table, count: nat, now: int, config: Config)
    requires CleanRound(before, after, count, now, config) && config.batchSize >= 1
    ensures Advances(before, after, count, AllDue(before, now, config), config.maxAttempts)
  {
    if AllWellShaped(before, config.maxAttempts) {
      RoundUses(before, after, count, now, config);
      SupplyEmpty(before, config.maxAttempts);
    }
  }

  lemma UsesMore(first: Table, before: Table, after: Table, sum: nat, effective: nat, count: nat, due: bool,
                 maxAttempts: nat)
    requires UsedUp(first, before, sum, effective, maxAttempts) && Advances(before, after, count, due, maxAttempts)
    ensures UsedUp(first, after, sum + count, effective + (if count > 0 || due then 1 else 0), maxAttempts)
  {
  }

  ghost predicate AdvancesAt(tables: seq<Table>, counts: seq<nat>, nows: seq<int>, config: Config, k: nat)
    requires k < |counts| && |tables| == |counts| + 1 == |nows| + 1
  {
    Advances(tables[k], tables[k + 1], counts[k], AllDue(tables[k], nows[k], config), config.maxAttempts)
  }

  lemma {:induction false} RoundsUse(tables: seq<Table>, counts: seq<nat>, nows: seq<int>, config: Config, k: nat)
    requires k <= |counts| && |tables| == |counts| + 1 == |nows| + 1
    requires AllWellShaped(tables[0], config.maxAttempts)
    requires forall i :: 0 <= i < |counts| ==> AdvancesAt(tables, counts, nows, config, i)
    ensures UsedUp(tables[0], tables[k], Sum(counts, k), Effective(tables, counts, nows, config, k), config.maxAttempts)
  {
    if k > 0 {
      var n := k - 1;
      RoundsUse(tables, counts, nows, config, n);
      assert AdvancesAt(tables, counts, nows, config, n);
      var due := AllDue(tables[n], nows[n], config);
      var sum, effective := Sum(counts, n), Effective(tables, counts, nows, config, n);
      UsesMore(tables[0], tables[n], tables[k], sum, effective, counts[n], due, config.maxAttempts);
    }
  }

  /** Those of the first `n` runs that attempt anything. */
  function Busy(counts: seq<nat>, n: nat): set<nat>
    requires n <= |counts|
  {
    set k: nat | k < n && counts[k] > 0
  }

  lemma {:induction false} BusyBound(counts: seq<nat>, n: nat)
    requires n <= |counts|
    ensures |Busy(counts, n)| <= Sum(counts, n)
  {
    if n > 0 {
      BusyBound(counts, n - 1);
      assert Busy(counts, n) == Busy(counts, n - 1) + if counts[n - 1] > 0 then {n - 1} else {};
    }
  }

  /** A run that attempts nothing found nothing due; so if all that is unfinished was due, nothing is
      unfinished. */
  lemma IdleRound(before: Table, after: Table, now: int, config: Config)
    requires CleanRound(before, after, 0, now, config) && AllWellShaped(before, config.maxAttempts)
    requires config.batchSize >= 1
    ensures ClaimableIds(before, now, config.lockTimeoutMs) == {}
    ensures AllDue(before, now, config) <==> forall id :: id in before ==> Terminal(before[id])
  {
    RoundUses(before, after, 0, now, config);
  }

  /** The outbox drains, whenever its publisher polls and whatever the retries wait for. Error-free
      runs attempt at most N * maxAttempts events for N rows in all, so at most that many runs attempt
      anything. When that many events have been attempted, or that many runs have attempted something
      or found everything due, every row is published or failed. */
  lemma Drains(tables: seq<Table>, counts: seq<nat>, nows: seq<int>, config: Config)
    requires CleanRounds(tables, counts, nows, config) && AllWellShaped(tables[0], config.maxAttempts)
    requires config.batchSize >= 1
    ensures var bound := |tables[0]| * config.maxAttempts;
      var n := |counts|;
      && |Busy(counts, n)| <= Sum(counts, n) <= bound && tables[n].Keys == tables[0].Keys
      && (Sum(counts, n) == bound || Effective(tables, counts, nows, config, n) >= bound
          ==> forall id :: id in tables[n] ==> Terminal(tables[n][id]))
  {
    forall k | 0 <= k < |counts| ensures AdvancesAt(tables, counts, nows, config, k) {
      assert RoundAt(tables, counts, nows, config, k);
      RoundAdvances(tables[k], tables[k + 1], counts[k], nows[k], config);
    }
    RoundsUse(tables, counts, nows, config, |counts|);
    BusyBound(counts, |counts|);
    SupplyBound(tables[0], config.maxAttempts);
    SupplyEmpty(tables[|counts|], config.maxAttempts);
  }
}
