/** Outbox rows, and what each repository operation does to the table, as functions.
    The repository class is proved against them; the pipeline protocol steps through them. */
module OutboxRows {
  import opened Wrappers
  import opened Codecs
  import opened Events

  type InstanceId = string
  type RowId = ObjectId

  datatype Status = Pending | Publishing | Published | Failed

  datatype Row = Row(
    event: MessageCreatedEvent, key: string, status: Status, attempts: nat, nextAttemptAt: int,
    lockedBy: Option<InstanceId>, lockedAt: Option<int>, lastError: Option<string>,
    createdAt: int, publishedAt: Option<int>)

  type Table = map<RowId, Row>

  function NewRow(event: MessageCreatedEvent, key: string, now: int): Row {
    Row(event, key, Pending, 0, now, None, None, None, now, None)
  }

  // ---- Claiming ----

  predicate IsClaimable(r: Row, now: int, lockTimeoutMs: int) {
    || (r.status == Pending && r.nextAttemptAt <= now)
    || (r.status == Publishing && r.lockedAt.Some? && r.lockedAt.value <= now - lockTimeoutMs)
  }

  function ClaimableIds(t: Table, now: int, lockTimeoutMs: int): set<RowId> {
    set id | id in t && IsClaimable(t[id], now, lockTimeoutMs)
  }

  /** The row one claim finds: the claimable one with the least id. */
  predicate IsNextClaim(t: Table, now: int, lockTimeoutMs: int, id: RowId) {
    && id in ClaimableIds(t, now, lockTimeoutMs)
    && forall x :: x in ClaimableIds(t, now, lockTimeoutMs) ==> id <= x
  }

  function Locked(r: Row, owner: InstanceId, now: int): Row {
    r.(status := Publishing, lockedBy := Some(owner), lockedAt := Some(now))
  }

  // ---- Transitions out of publishing: only for the owner of the lock ----

  predicate Owns(t: Table, id: RowId, owner: InstanceId) {
    id in t && t[id].status == Publishing && t[id].lockedBy == Some(owner)
  }

  function MarkedPublished(t: Table, id: RowId, owner: InstanceId, at: int): Table {
    if !Owns(t, id, owner) then t else
    t[id := t[id].(status := Published, publishedAt := Some(at),
                   lastError := None, lockedAt := None, lockedBy := None)]
  }

  function RetryScheduled(t: Table, id: RowId, owner: InstanceId, attempts: nat, nextAttemptAt: int,
                          lastError: string): Table
  {
    if !Owns(t, id, owner) then t else
    t[id := t[id].(status := Pending, attempts := attempts, nextAttemptAt := nextAttemptAt,
                   lastError := Some(lastError), lockedAt := None, lockedBy := None)]
  }

  function MarkedFailed(t: Table, id: RowId, owner: InstanceId, attempts: nat, failedAt: int,
                        lastError: string): Table
  {
    if !Owns(t, id, owner) then t else
    t[id := t[id].(status := Failed, attempts := attempts, nextAttemptAt := failedAt,
                   lastError := Some(lastError), lockedAt := None, lockedBy := None)]
  }

  /** What the publisher does about a failed publish: `claimedAttempts` comes from its snapshot of
      the row, not from the row as it now is. */
  function FailureRecorded(t: Table, id: RowId, owner: InstanceId, claimedAttempts: nat,
                           maxAttempts: nat, now: int, delayMs: int, error: string): Table
  {
    var attempts := claimedAttempts + 1;
    if attempts >= maxAttempts then MarkedFailed(t, id, owner, attempts, now, error)
    else RetryScheduled(t, id, owner, attempts, now + delayMs, error)
  }

  /** What each of the three says, field by field, of a row that the owner has locked; to anyone else
      they do nothing. The event, its key and the date of creation always stay. */
  lemma TransitionsMean(t: Table, id: RowId, owner: InstanceId, attempts: nat, at: int, error: string)
    ensures !Owns(t, id, owner) ==>
      MarkedPublished(t, id, owner, at) == RetryScheduled(t, id, owner, attempts, at, error)
      == MarkedFailed(t, id, owner, attempts, at, error) == t
    ensures Owns(t, id, owner) ==>
      var r := t[id];
      var others := t - {id};
      && MarkedPublished(t, id, owner, at)
         == others + map[id := Row(r.event, r.key, Published, r.attempts, r.nextAttemptAt, None, None, None,
                                   r.createdAt, Some(at))]
      && RetryScheduled(t, id, owner, attempts, at, error)
         == others + map[id := Row(r.event, r.key, Pending, attempts, at, None, None, Some(error),
                                   r.createdAt, r.publishedAt)]
      && MarkedFailed(t, id, owner, attempts, at, error)
         == others + map[id := Row(r.event, r.key, Failed, attempts, at, None, None, Some(error),
                                   r.createdAt, r.publishedAt)]
  {
    if Owns(t, id, owner) { assert t == (t - {id}) + map[id := t[id]]; }
  }

  // ---- Operator redrive ----

  function RedrivenRow(r: Row, now: int): Row {
    r.(status := Pending, attempts := 0, nextAttemptAt := now,
       lastError := None, lockedAt := None, lockedBy := None, publishedAt := None)
  }

  function Redriven(t: Table, ids: set<RowId>, now: int): Table {
    map id | id in t :: if id in ids && t[id].status == Failed then RedrivenRow(t[id], now) else t[id]
  }

  // ---- Row shape ----

  /** A row is locked exactly while it is being published, is dated exactly when published, and
      has used up its attempts exactly when it has failed. */
  predicate WellShaped(r: Row, maxAttempts: nat) {
    && (r.lockedBy.Some? <==> r.status == Publishing)
    && (r.lockedAt.Some? <==> r.status == Publishing)
    && (r.publishedAt.Some? <==> r.status == Published)
    && (if r.status == Failed then r.attempts == maxAttempts else r.attempts < maxAttempts)
  }

  /** No row of `u` is new, and none has had its event or its key changed. */
  predicate SameEvents(t: Table, u: Table) {
    forall id :: id in u ==> id in t && u[id].event == t[id].event && u[id].key == t[id].key
  }

  ghost predicate AllWellShaped(t: Table, maxAttempts: nat) {
    forall id :: id in t ==> WellShaped(t[id], maxAttempts)
  }

  lemma FailureKeepsShape(t: Table, id: RowId, owner: InstanceId, claimedAttempts: nat,
                          maxAttempts: nat, now: int, delayMs: int, error: string)
    requires AllWellShaped(t, maxAttempts) && claimedAttempts < maxAttempts
    ensures AllWellShaped(FailureRecorded(t, id, owner, claimedAttempts, maxAttempts, now, delayMs, error), maxAttempts)
  {
  }
}
