/** Kafka topics: append-only partition logs, each with one consumer group's committed offset and
    the offset that group's running consumer will handle next. */
module Topics {
  import opened Wrappers
  import opened Codecs

  datatype Record = Record(key: Option<Bytes>, value: Option<Bytes>)

  datatype Partition = Partition(log: seq<Record>, committed: nat, position: nat) {
    predicate Valid() { committed <= |log| && position <= |log| }

    /** The group has neither committed past record `i` nor got past it in memory. */
    predicate Outstanding(i: int) { 0 <= i < |log| && committed <= i && position <= i }
  }

  type Topic = seq<Partition>

  predicate ValidTopic(t: Topic) {
    forall p :: 0 <= p < |t| ==> t[p].Valid()
  }

  function EmptyTopic(partitions: nat): Topic {
    seq(partitions, _ => Partition([], 0, 0))
  }

  function Append(t: Topic, p: nat, r: Record): Topic
    requires p < |t|
  {
    t[p := t[p].(log := t[p].log + [r])]
  }

  function Advance(t: Topic, p: nat): Topic
    requires p < |t|
  {
    t[p := t[p].(position := t[p].position + 1)]
  }

  function Commit(t: Topic, p: nat, offset: nat): Topic
    requires p < |t|
  {
    t[p := t[p].(committed := offset)]
  }

  /** The consumer of partition `p` restarts from the committed offset. */
  function Rewind(t: Topic, p: nat): Topic
    requires p < |t|
  {
    t[p := t[p].(position := t[p].committed)]
  }

  ghost predicate WaitsAt(t: Topic, wanted: Record -> bool, p: int, i: int) {
    0 <= p < |t| && t[p].Outstanding(i) && wanted(t[p].log[i])
  }

  /** Some wanted record has still to be handled. */
  ghost predicate Waiting(t: Topic, wanted: Record -> bool) {
    exists p, i :: WaitsAt(t, wanted, p, i)
  }

  /** Every record of every log, handled or not, is `good`. */
  ghost predicate AllLogged(t: Topic, good: Record -> bool) {
    forall p, i :: 0 <= p < |t| && 0 <= i < |t[p].log| ==> good(t[p].log[i])
  }

  predicate AtEnd(p: Partition) {
    p.committed == |p.log|
  }

  /** The group has committed all of every log. */
  predicate Consumed(t: Topic) {
    forall p :: 0 <= p < |t| ==> AtEnd(t[p])
  }

  lemma WaitingIsNotConsumed(t: Topic, wanted: Record -> bool)
    requires Waiting(t, wanted)
    ensures !Consumed(t)
  {
    var p, i :| WaitsAt(t, wanted, p, i);
    assert !AtEnd(t[p]);
  }

  predicate LoggedAt(t: Topic, r: Record, p: int, i: int) {
    0 <= p < |t| && 0 <= i < |t[p].log| && t[p].log[i] == r
  }

  ghost predicate Logged(t: Topic, r: Record) {
    exists p, i :: LoggedAt(t, r, p, i)
  }

  /** Every log of `t` is a prefix of the same log of `u`. */
  predicate Extends(t: Topic, u: Topic) {
    |t| == |u| && forall p :: 0 <= p < |t| ==> t[p].log <= u[p].log
  }

  lemma LoggedStays(t: Topic, u: Topic, r: Record)
    requires Extends(t, u) && Logged(t, r)
    ensures Logged(u, r)
  {
    var p, i :| LoggedAt(t, r, p, i);
    assert t[p].log <= u[p].log;
    assert LoggedAt(u, r, p, i);
  }

  lemma AppendLogs(t: Topic, p: nat, r: Record)
    requires p < |t|
    ensures Extends(t, Append(t, p, r)) && Logged(Append(t, p, r), r)
  {
    assert LoggedAt(Append(t, p, r), r, p, |t[p].log|);
  }

  lemma AppendWaits(t: Topic, p: nat, r: Record, wanted: Record -> bool)
    requires p < |t| && ValidTopic(t)
    ensures Waiting(t, wanted) || wanted(r) ==> Waiting(Append(t, p, r), wanted)
  {
    if Waiting(t, wanted) {
      var q, i :| WaitsAt(t, wanted, q, i);
      assert WaitsAt(Append(t, p, r), wanted, q, i);
    } else if wanted(r) {
      assert WaitsAt(Append(t, p, r), wanted, p, |t[p].log|);
    }
  }

  lemma AdvanceWaits(t: Topic, p: nat, wanted: Record -> bool)
    requires p < |t| && t[p].position < |t[p].log|
    requires Waiting(t, wanted)
    ensures Waiting(Advance(t, p), wanted) || wanted(t[p].log[t[p].position])
  {
    var q, i :| WaitsAt(t, wanted, q, i);
    if q != p || i != t[p].position { assert WaitsAt(Advance(t, p), wanted, q, i); }
  }

  /** Committing leaves behind at most the record at the position, and only by committing past it. */
  lemma CommitWaits(t: Topic, p: nat, offset: nat, wanted: Record -> bool)
    requires p < |t| && t[p].Valid() && offset <= t[p].position + 1
    requires Waiting(t, wanted)
    ensures Waiting(Commit(t, p, offset), wanted)
         || (offset == t[p].position + 1 <= |t[p].log| && wanted(t[p].log[t[p].position]))
  {
    var q, i :| WaitsAt(t, wanted, q, i);
    if q != p || offset <= i { assert WaitsAt(Commit(t, p, offset), wanted, q, i); }
  }

  lemma RewindWaits(t: Topic, p: nat, wanted: Record -> bool)
    requires p < |t| && Waiting(t, wanted)
    ensures Waiting(Rewind(t, p), wanted)
  {
    var q, i :| WaitsAt(t, wanted, q, i);
    assert WaitsAt(Rewind(t, p), wanted, q, i);
  }

  // ---- Counting ----

  function CommittedTotal(t: Topic): nat {
    if t == [] then 0 else CommittedTotal(t[..|t| - 1]) + t[|t| - 1].committed
  }

  function LoggedTotal(t: Topic): nat {
    if t == [] then 0 else LoggedTotal(t[..|t| - 1]) + |t[|t| - 1].log|
  }

  lemma {:induction false} TotalsUpdate(t: Topic, p: nat, part: Partition)
    requires p < |t|
    ensures CommittedTotal(t[p := part]) == CommittedTotal(t) - t[p].committed + part.committed
    ensures LoggedTotal(t[p := part]) == LoggedTotal(t) - |t[p].log| + |part.log|
    decreases |t|
  {
    var n := |t| - 1;
    var u := t[p := part];
    if p < n {
      TotalsUpdate(t[..n], p, part);
      assert u[..n] == t[..n][p := part];
    } else {
      assert u[..n] == t[..n];
    }
  }

  lemma AppendTotal(t: Topic, p: nat, r: Record)
    requires p < |t|
    ensures LoggedTotal(Append(t, p, r)) == LoggedTotal(t) + 1
  {
    TotalsUpdate(t, p, Append(t, p, r)[p]);
  }

  function CountIn(log: seq<Record>, wanted: Record -> bool): nat {
    if log == [] then 0 else
    var n := |log| - 1;
    CountIn(log[..n], wanted) + if wanted(log[n]) then 1 else 0
  }

  /** How many wanted records the logs have, handled or not. */
  function Occurring(t: Topic, wanted: Record -> bool): nat {
    if t == [] then 0 else Occurring(t[..|t| - 1], wanted) + CountIn(t[|t| - 1].log, wanted)
  }

  lemma {:induction false} OccurringUpdate(t: Topic, p: nat, part: Partition, wanted: Record -> bool)
    requires p < |t|
    ensures Occurring(t[p := part], wanted)
         == Occurring(t, wanted) - CountIn(t[p].log, wanted) + CountIn(part.log, wanted)
    decreases |t|
  {
    var n := |t| - 1;
    var u := t[p := part];
    if p < n {
      OccurringUpdate(t[..n], p, part, wanted);
      assert u[..n] == t[..n][p := part];
    } else {
      assert u[..n] == t[..n];
    }
  }

  lemma OccurringAppend(t: Topic, p: nat, r: Record, wanted: Record -> bool)
    requires p < |t|
    ensures Occurring(Append(t, p, r), wanted) == Occurring(t, wanted) + if wanted(r) then 1 else 0
  {
    var log := t[p].log;
    assert (log + [r])[..|log|] == log;
    OccurringUpdate(t, p, Append(t, p, r)[p], wanted);
  }

  /** Every log is as it was; offsets may have moved. */
  predicate SameLogs(t: Topic, u: Topic) {
    |t| == |u| && forall p :: 0 <= p < |t| ==> t[p].log == u[p].log
  }

  lemma {:induction false} SameLogsCount(t: Topic, u: Topic, wanted: Record -> bool)
    requires SameLogs(t, u)
    ensures Occurring(t, wanted) == Occurring(u, wanted) && LoggedTotal(t) == LoggedTotal(u)
    decreases |t|
  {
    if t != [] { SameLogsCount(t[..|t| - 1], u[..|u| - 1], wanted); }
  }
}
