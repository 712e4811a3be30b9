/** The outbox repository: the table is a field that each operation updates in place. */
module OutboxRepository {
  import opened Wrappers
  import opened Events
  import opened Ordering
  import opened OutboxRows

  /** What a claim returns: a snapshot of the row. */
  datatype OutboxEvent = OutboxEvent(id: RowId, row: Row)

  /** Call number `call` of a claim loop, counted from 0, reports an error. */
  datatype ClaimFailure = ClaimFailure(call: nat, tookEffect: bool)

  function ById(): Ranking {
    id => Rank(0, id)
  }

  /** `events` are the rows of `ids`, in that order, as table `t` has them. */
  predicate Snapshots(events: seq<OutboxEvent>, ids: seq<RowId>, t: Table) {
    |events| == |ids| && forall k :: 0 <= k < |ids| ==> ids[k] in t && events[k] == OutboxEvent(ids[k], t[ids[k]])
  }

  /** The table with the rows of `ids` locked. */
  function AllLocked(t: Table, ids: seq<RowId>, owner: InstanceId, now: int): Table {
    map id | id in t :: if id in ids then Locked(t[id], owner, now) else t[id]
  }

  /** A row locked at `now` is not claimable at `now`: the lease is positive. */
  lemma LockedIsTaken(t: Table, id: RowId, owner: InstanceId, now: int, lockTimeoutMs: int)
    requires id in t && lockTimeoutMs > 0
    ensures ClaimableIds(t[id := Locked(t[id], owner, now)], now, lockTimeoutMs)
         == ClaimableIds(t, now, lockTimeoutMs) - {id}
  {
  }

  lemma OneMoreLocked(t: Table, ids: seq<RowId>, id: RowId, owner: InstanceId, now: int)
    requires id in t && id !in ids
    ensures var u := AllLocked(t, ids, owner, now);
      AllLocked(t, ids + [id], owner, now) == u[id := Locked(u[id], owner, now)]
  {
  }

  /** Table `t` is what `before` becomes when `ids` are its first claimable rows, now locked. */
  ghost predicate FirstClaimed(before: Table, ids: seq<RowId>, t: Table, owner: InstanceId,
                               now: int, lockTimeoutMs: int)
  {
    && Arrange(ClaimableIds(before, now, lockTimeoutMs), ById())
       == ids + Arrange(ClaimableIds(t, now, lockTimeoutMs), ById())
    && t == AllLocked(before, ids, owner, now)
    && forall id :: id in ids ==> id !in ClaimableIds(t, now, lockTimeoutMs)
  }

  lemma OneMoreClaimed(before: Table, ids: seq<RowId>, t: Table, owner: InstanceId,
                       now: int, lockTimeoutMs: int, id: RowId)
    requires lockTimeoutMs > 0 && FirstClaimed(before, ids, t, owner, now, lockTimeoutMs)
    requires id in ClaimableIds(t, now, lockTimeoutMs) && id == First(ClaimableIds(t, now, lockTimeoutMs), ById())
    ensures FirstClaimed(before, ids + [id], t[id := Locked(t[id], owner, now)], owner, now, lockTimeoutMs)
  {
    LockedIsTaken(t, id, owner, now, lockTimeoutMs);
    OneMoreLocked(before, ids, id, owner, now);
    var left := ClaimableIds(t, now, lockTimeoutMs);
    assert Arrange(left, ById()) == [id] + Arrange(left - {id}, ById());
    assert ids + ([id] + Arrange(left - {id}, ById())) == (ids + [id]) + Arrange(left - {id}, ById());
  }

  /** The beginning of an arrangement by id. */
  lemma ArrangedStart(all: set<RowId>, ids: seq<RowId>, rest: seq<RowId>)
    requires Arrange(all, ById()) == ids + rest
    ensures |ids| + |rest| == |all|
    ensures forall i, j :: 0 <= i < j < |ids| ==> ids[i] < ids[j]
    ensures forall i :: 0 <= i < |ids| ==> ids[i] in all
    ensures forall i, x :: 0 <= i < |ids| && x in all && x !in ids ==> ids[i] < x
  {
    ArrangeSorts(all, ById());
    var s := ids + rest;
    assert forall i :: 0 <= i < |ids| ==> s[i] == ids[i] && s[i] in s;
    forall i, x | 0 <= i < |ids| && x in all && x !in ids ensures ids[i] < x {
      assert x in s;
      var k :| 0 <= k < |s| && s[k] == x;
      assert Before(ById()(s[i]), ById()(s[k]));
    }
  }

  /** Read back: the claimed ids are the first of the claimable ids in increasing order, as many as
      the batch holds or there are. */
  lemma FirstClaimedIds(before: Table, ids: seq<RowId>, t: Table, owner: InstanceId, now: int,
                        lockTimeoutMs: int, batchSize: nat)
    requires FirstClaimed(before, ids, t, owner, now, lockTimeoutMs) && |ids| <= batchSize
    requires |ids| == batchSize || ClaimableIds(t, now, lockTimeoutMs) == {}
    ensures var eligible := ClaimableIds(before, now, lockTimeoutMs);
      && |ids| == (if batchSize <= |eligible| then batchSize else |eligible|)
      && (forall i, j :: 0 <= i < j < |ids| ==> ids[i] < ids[j])
      && (forall i :: 0 <= i < |ids| ==> ids[i] in eligible)
      && (forall i, x :: 0 <= i < |ids| && x in eligible && x !in ids ==> ids[i] < x)
  {
    var left := ClaimableIds(t, now, lockTimeoutMs);
    ArrangedStart(ClaimableIds(before, now, lockTimeoutMs), ids, Arrange(left, ById()));
    ArrangeSorts(left, ById());
  }

  /** And the table has them locked, with no other row changed. */
  lemma FirstClaimedRows(before: Table, ids: seq<RowId>, t: Table, owner: InstanceId, now: int, lockTimeoutMs: int)
    requires FirstClaimed(before, ids, t, owner, now, lockTimeoutMs)
    ensures t.Keys == before.Keys
    ensures forall id :: id in t ==> t[id] == if id in ids then Locked(before[id], owner, now) else before[id]
  {
  }

  class MongoOutboxRepository {
    var rows: Table

    constructor ()
      ensures rows == map[]
    {
      rows := map[];
    }

    method Create(id: RowId, event: MessageCreatedEvent, key: string, now: int)
      requires id !in rows
      modifies this
      ensures rows == old(rows)[id := NewRow(event, key, now)]
    {
      rows := rows[id := NewRow(event, key, now)];
    }

    /** Find the claimable row with the least id and lock it, in one atomic step. Claimable are pending
        rows that are due, and rows in publishing whose lease has run out: locked no later than
        `lockTimeoutMs` before `now`. */
    method ClaimNext(now: int, lockTimeoutMs: int, lockedBy: InstanceId) returns (event: Option<OutboxEvent>)
      modifies this
      ensures event.None? <==> ClaimableIds(old(rows), now, lockTimeoutMs) == {}
      ensures event.None? ==> rows == old(rows)
      ensures event.Some? ==>
        var id := event.value.id;
        && IsNextClaim(old(rows), now, lockTimeoutMs, id)
        && id == First(ClaimableIds(old(rows), now, lockTimeoutMs), ById())
        && rows == old(rows)[id := Locked(old(rows)[id], lockedBy, now)]
        && event.value.row == rows[id]
      ensures event.Some? ==>
        var r := old(rows)[event.value.id];
        && (|| (r.status == Pending && r.nextAttemptAt <= now)
            || (r.status == Publishing && r.lockedAt.Some? && r.lockedAt.value + lockTimeoutMs <= now))
        && event.value.row == Row(r.event, r.key, Publishing, r.attempts, r.nextAttemptAt, Some(lockedBy), Some(now),
                                  r.lastError, r.createdAt, r.publishedAt)
      ensures forall x :: x in old(rows) && (event.None? || x < event.value.id) ==>
        var r := old(rows)[x];
        && !(r.status == Pending && r.nextAttemptAt <= now)
        && !(r.status == Publishing && r.lockedAt.Some? && r.lockedAt.value + lockTimeoutMs <= now)
    {
      var ids := ClaimableIds(rows, now, lockTimeoutMs);
      assert forall x :: x in rows && IsClaimable(rows[x], now, lockTimeoutMs) ==> x in ids;
      if ids == {} { return None; }
      var id := First(ids, ById());
      rows := rows[id := Locked(rows[id], lockedBy, now)];
      event := Some(OutboxEvent(id, rows[id]));
    }

    /** One more call of a loop that began with table `start` and has claimed `claimed`. */
    method ClaimAnother(now: int, lockTimeoutMs: int, lockedBy: InstanceId, ghost start: Table, ghost ids: seq<RowId>,
                        ghost claimed: seq<OutboxEvent>)
      returns (event: Option<OutboxEvent>, ghost moreIds: seq<RowId>, ghost more: seq<OutboxEvent>)
      requires lockTimeoutMs > 0 && FirstClaimed(start, ids, rows, lockedBy, now, lockTimeoutMs)
      requires Snapshots(claimed, ids, rows)
      modifies this
      ensures FirstClaimed(start, moreIds, rows, lockedBy, now, lockTimeoutMs) && Snapshots(more, moreIds, rows)
      ensures event.None? ==> more == claimed && ClaimableIds(rows, now, lockTimeoutMs) == {}
      ensures event.Some? ==> more == claimed + [event.value]
    {
      ghost var before := rows;
      event := ClaimNext(now, lockTimeoutMs, lockedBy);
      moreIds, more := ids, claimed;
      if event.Some? {
        OneMoreClaimed(start, ids, before, lockedBy, now, lockTimeoutMs, event.value.id);
        moreIds, more := ids + [event.value.id], claimed + [event.value];
      }
    }

    /** Run without interference, the claim loop takes exactly the first `batchSize` claimable rows
        in id order, locks them, returns them as locked, and touches no other row. If one of its calls
        reports an error, it has taken as many of these rows as it got to, and returns none; `claimed`
        are the rows it has locked all the same. */
    method ClaimPublishable(batchSize: nat, lockedBy: InstanceId, lockTimeoutMs: int, now: int,
                            failure: Option<ClaimFailure>)
      returns (ok: bool, events: seq<OutboxEvent>, ghost ids: seq<RowId>, ghost claimed: seq<OutboxEvent>)
      requires lockTimeoutMs > 0
      modifies this
      ensures FirstClaimed(old(rows), ids, rows, lockedBy, now, lockTimeoutMs)
      ensures Snapshots(claimed, ids, rows) && |ids| <= batchSize
      ensures ok ==> events == claimed
      ensures ok ==> |ids| == batchSize || ClaimableIds(rows, now, lockTimeoutMs) == {}
      ensures !ok ==> events == [] && failure.Some?
      ensures !ok ==> failure.value.call <= |ids| <= failure.value.call + if failure.value.tookEffect then 1 else 0
      ensures failure.None? ==> ok
    {
      ok, events, ids, claimed := true, [], [], [];
      var index := 0;
      assert rows == AllLocked(rows, [], lockedBy, now);
      while index < batchSize
        invariant 0 <= index <= batchSize && |ids| == index && ok && events == claimed
        invariant FirstClaimed(old(rows), ids, rows, lockedBy, now, lockTimeoutMs)
        invariant Snapshots(claimed, ids, rows)
      {
        var fails := failure.Some? && failure.value.call == index;
        if fails && !failure.value.tookEffect { return false, [], ids, claimed; }
        var event;
        event, ids, claimed := ClaimAnother(now, lockTimeoutMs, lockedBy, old(rows), ids, claimed);
        if fails { return false, [], ids, claimed; }
        if event.None? { break; }
        events := events + [event.value];
        index := index + 1;
      }
    }

    /** The filter of the three updates below. */
    predicate MatchesLock(id: RowId, lockedBy: InstanceId)
      reads this
    {
      id in rows && rows[id].lockedBy == Some(lockedBy) && rows[id].status == Publishing
    }

    method MarkPublished(id: RowId, lockedBy: InstanceId, publishedAt: int) returns (marked: bool)
      modifies this
      ensures rows == MarkedPublished(old(rows), id, lockedBy, publishedAt)
      ensures marked <==> Owns(old(rows), id, lockedBy)
    {
      marked := MatchesLock(id, lockedBy);
      if marked {
        rows := rows[id := rows[id].(publishedAt := Some(publishedAt), status := Published,
                                     lastError := None, lockedAt := None, lockedBy := None)];
      }
    }

    method ScheduleRetry(id: RowId, lockedBy: InstanceId, attempts: nat, nextAttemptAt: int, lastError: string)
      returns (marked: bool)
      modifies this
      ensures rows == RetryScheduled(old(rows), id, lockedBy, attempts, nextAttemptAt, lastError)
      ensures marked <==> Owns(old(rows), id, lockedBy)
    {
      marked := MatchesLock(id, lockedBy);
      if marked {
        rows := rows[id := rows[id].(attempts := attempts, lastError := Some(lastError), nextAttemptAt := nextAttemptAt,
                                     status := Pending, lockedAt := None, lockedBy := None)];
      }
    }

    method MarkFailed(id: RowId, lockedBy: InstanceId, attempts: nat, failedAt: int, lastError: string)
      returns (marked: bool)
      modifies this
      ensures rows == MarkedFailed(old(rows), id, lockedBy, attempts, failedAt, lastError)
      ensures marked <==> Owns(old(rows), id, lockedBy)
    {
      marked := MatchesLock(id, lockedBy);
      if marked {
        rows := rows[id := rows[id].(attempts := attempts, lastError := Some(lastError), nextAttemptAt := failedAt,
                                     status := Failed, lockedAt := None, lockedBy := None)];
      }
    }
  }
}
