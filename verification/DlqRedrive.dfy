/** The command that sends dead-letter records back to the main topic: a session of deliveries that
    republishes each record, then commits it, and stops at a limit or when nothing arrives. */
module DlqRedrive {
  import opened Topics
  import opened Protocol

  /** What one session sees: a record of a partition is delivered, and sending and committing it
      may fail with or without effect; or the indexer adds a dead-letter record; or the consumer of a
      partition starts again from the committed offset. The session is idle when the events run out. */
  datatype SessionEvent =
    | Delivery(partition: nat, mainPartition: nat, sent: bool, acknowledged: bool, committed: bool, confirmed: bool)
    | Arrival(partition: nat, record: Record)
    | Restart(partition: nat)

  predicate ValidEvent(e: SessionEvent, dlqPartitions: nat, mainPartitions: nat) {
    match e
    case Delivery(p, q, sent, acknowledged, committed, confirmed) =>
      && p < dlqPartitions && q < mainPartitions
      && (acknowledged ==> sent) && (committed ==> acknowledged) && (confirmed ==> committed)
    case Arrival(p, _) => p < dlqPartitions
    case Restart(p) => p < dlqPartitions
  }

  ghost predicate ValidEvents(events: seq<SessionEvent>, dlqPartitions: nat, mainPartitions: nat) {
    forall k :: 0 <= k < |events| ==> ValidEvent(events[k], dlqPartitions, mainPartitions)
  }

  predicate IsFault(e: SessionEvent) {
    e.Delivery? && !e.confirmed
  }

  function Faults(events: seq<SessionEvent>): nat {
    if events == [] then 0 else
    var n := |events| - 1;
    Faults(events[..n]) + if IsFault(events[n]) then 1 else 0
  }

  /** Every dead-letter record that the group has committed or got past is in the main topic, with
      the same key and value. */
  ghost predicate Republished(main: Topic, dlq: Topic) {
    forall p, i :: 0 <= p < |dlq| && 0 <= i < |dlq[p].log| && (i < dlq[p].committed || i < dlq[p].position)
      ==> Logged(main, dlq[p].log[i])
  }

  /** A topic with nothing but its committed offsets: what a session must not lose. */
  predicate SameOffsets(t: Topic, u: Topic) {
    |t| == |u| && forall p :: 0 <= p < |t| ==> t[p].committed == u[p].committed
  }

  predicate OffsetsGrow(t: Topic, u: Topic) {
    |t| == |u| && forall p :: 0 <= p < |t| ==> t[p].committed <= u[p].committed
  }

  function RewindAll(t: Topic): Topic {
    seq(|t|, p requires 0 <= p < |t| => t[p].(position := t[p].committed))
  }

  lemma RepublishedGrows(main: Topic, more: Topic, dlq: Topic)
    requires Republished(main, dlq) && Extends(main, more)
    ensures Republished(more, dlq)
  {
    forall p, i | 0 <= p < |dlq| && 0 <= i < |dlq[p].log| && (i < dlq[p].committed || i < dlq[p].position)
      ensures Logged(more, dlq[p].log[i])
    {
      LoggedStays(main, more, dlq[p].log[i]);
    }
  }

  /** Sending the record at the position, then committing it or getting past it, in that order,
      leaves nothing behind that was not sent. */
  lemma RedriveKeepsRepublished(x: Streams, p: nat, q: nat, d: Redriving)
    requires p < |x.dlq| && x.dlq[p].position < |x.dlq[p].log| && q < |x.main|
    requires (d.committed ==> d.sent) && (d.completed ==> d.committed)
    requires Republished(x.main, x.dlq)
    ensures var y := ApplyRedrive(x, p, q, d); Republished(y.main, y.dlq) && Extends(x.main, y.main)
  {
    if d.sent {
      var r := x.dlq[p].log[x.dlq[p].position];
      AppendLogs(x.main, q, r);
      RepublishedGrows(x.main, Append(x.main, q, r), x.dlq);
    }
  }

  /** The counters of a session, and whether it stopped at the limit rather than for idleness. */
  datatype Counters = Counters(consumed: nat, republished: nat, committed: nat, stopped: bool)

  /** The counters after delivery `e`. A delivery that throws is counted, and delivered again. */
  function Counted(c: Counters, e: SessionEvent, dryRun: bool, limit: nat): Counters
    requires e.Delivery?
  {
    Counters(c.consumed + 1,
             if !dryRun && e.acknowledged then c.republished + 1 else c.republished,
             if !dryRun && e.confirmed then c.committed + 1 else c.committed,
             (dryRun || e.confirmed) && c.consumed + 1 >= limit)
  }

  /** Deliveries that did not throw. */
  function Successes(c: Counters, dryRun: bool): nat {
    if dryRun then c.consumed else c.committed
  }

  /** In every partition the position is the committed offset, or, after a commit that took effect
      but threw, the offset before it. */
  predicate InStep(t: Topic) {
    forall p :: 0 <= p < |t| ==> t[p].position <= t[p].committed <= t[p].position + 1
  }

  predicate AtCommitted(t: Topic) {
    forall p :: 0 <= p < |t| ==> t[p].position == t[p].committed
  }

  lemma FaultsPrefix(events: seq<SessionEvent>, k: nat)
    requires k < |events|
    ensures Faults(events[..k + 1]) == Faults(events[..k]) + (if IsFault(events[k]) then 1 else 0)
    ensures Faults(events[..k + 1]) <= Faults(events)
    decreases |events| - k
  {
    assert events[..k + 1][..k] == events[..k];
    if k + 1 < |events| { FaultsPrefix(events, k + 1); } else { assert events[..k + 1] == events; }
  }

  lemma {:induction false} RewindTotals(t: Topic)
    ensures CommittedTotal(RewindAll(t)) == CommittedTotal(t)
    decreases |t|
  {
    if t != [] {
      RewindTotals(t[..|t| - 1]);
      assert RewindAll(t)[..|t| - 1] == RewindAll(t[..|t| - 1]);
    }
  }

  /** What handling delivery `e` does to the topics. */
  function Handled(x: Streams, e: SessionEvent, dryRun: bool): Streams
    requires e.Delivery? && ValidEvent(e, |x.dlq|, |x.main|)
    requires x.dlq[e.partition].position < |x.dlq[e.partition].log|
  {
    if dryRun then x.(dlq := Advance(x.dlq, e.partition))
    else ApplyRedrive(x, e.partition, e.mainPartition, Redriving(e.sent, e.committed, e.confirmed))
  }

  /** The counters of a session that has met `faults` faults and has not been stopped. */
  predicate CountsOk(c: Counters, dryRun: bool, limit: nat, faults: nat) {
    && c.committed <= c.republished <= c.consumed
    && c.consumed <= Successes(c, dryRun) + faults && Successes(c, dryRun) < limit
    && (dryRun ==> c.republished == 0)
  }

  /** The counters of a session that met `faults` faults, at its end. Without faults, and in a dry run,
      it stops exactly at the limit. */
  predicate CountsEnd(c: Counters, dryRun: bool, limit: nat, faults: nat) {
    && c.committed <= c.republished <= c.consumed && c.committed <= limit
    && c.consumed <= limit + faults && (c.stopped ==> c.consumed >= limit)
    && (dryRun ==> c.republished == 0 && c.consumed <= limit && (c.stopped <==> c.consumed == limit))
    && (!dryRun && faults == 0 ==> c.consumed == c.committed && (c.stopped <==> c.consumed == limit))
  }

  lemma LastCount(c: Counters, e: SessionEvent, dryRun: bool, limit: nat, faults: nat, all: nat)
    requires e.Delivery? && (e.confirmed ==> e.acknowledged) && !c.stopped && CountsOk(c, dryRun, limit, faults)
    requires (if IsFault(e) then faults + 1 else faults) <= all
    ensures Counted(c, e, dryRun, limit).stopped ==> CountsEnd(Counted(c, e, dryRun, limit), dryRun, limit, all)
  {
  }

  lemma IdleCount(c: Counters, dryRun: bool, limit: nat, faults: nat)
    requires !c.stopped && CountsOk(c, dryRun, limit, faults)
    ensures CountsEnd(c, dryRun, limit, faults)
  {
  }

  /** `n` records were sent and committed, and nothing else. */
  ghost predicate Balanced(x: Streams, y: Streams, n: nat) {
    && AtCommitted(y.dlq)
    && CommittedTotal(y.dlq) == CommittedTotal(x.dlq) + n
    && LoggedTotal(y.main) == LoggedTotal(x.main) + n
  }

  /** The topics `y` of a session that began with topics `x`. */
  ghost predicate SessionOk(x: Streams, y: Streams, c: Counters, dryRun: bool, faults: nat) {
    && ValidTopic(y.dlq) && Extends(x.main, y.main) && Extends(x.dlq, y.dlq)
    && (dryRun ==> y.main == x.main && SameOffsets(x.dlq, y.dlq))
    && (!dryRun ==> InStep(y.dlq) && OffsetsGrow(x.dlq, y.dlq))
    && (!dryRun && Republished(x.main, RewindAll(x.dlq)) ==> Republished(y.main, y.dlq))
    && (!dryRun && faults == 0 ==> Balanced(x, y, c.committed))
  }

  lemma MoreFaults(x: Streams, y: Streams, c: Counters, dryRun: bool, faults: nat, all: nat)
    requires SessionOk(x, y, c, dryRun, faults) && faults <= all
    ensures SessionOk(x, y, c, dryRun, all)
  {
  }

  /** A session starts each partition at its committed offset. */
  lemma SessionStarts(x: Streams, dryRun: bool)
    requires ValidTopic(x.dlq)
    ensures SessionOk(x, x.(dlq := RewindAll(x.dlq)), Counters(0, 0, 0, false), dryRun, 0)
  {
    RewindTotals(x.dlq);
  }

  /** What an event that delivers nothing does to the topics. */
  function Undelivered(x: Streams, e: SessionEvent): Streams
    requires !e.Delivery? && e.partition < |x.dlq|
  {
    if e.Arrival? then x.(dlq := Append(x.dlq, e.partition, e.record)) else x.(dlq := Rewind(x.dlq, e.partition))
  }

  lemma UndeliveredBalances(x: Streams, y: Streams, e: SessionEvent, n: nat)
    requires !e.Delivery? && e.partition < |y.dlq| && Balanced(x, y, n)
    ensures Balanced(x, Undelivered(y, e), n)
  {
    var z := Undelivered(y, e);
    assert z.dlq == y.dlq[e.partition := z.dlq[e.partition]];
    TotalsUpdate(y.dlq, e.partition, z.dlq[e.partition]);
  }

  lemma UndeliveredMoves(y: Streams, e: SessionEvent)
    requires !e.Delivery? && e.partition < |y.dlq| && ValidTopic(y.dlq)
    ensures var z := Undelivered(y, e);
      && z.main == y.main && ValidTopic(z.dlq) && Extends(y.dlq, z.dlq) && SameOffsets(y.dlq, z.dlq)
      && (InStep(y.dlq) ==> InStep(z.dlq))
  {
  }

  lemma UndeliveredKeepsRepublished(y: Streams, e: SessionEvent)
    requires !e.Delivery? && e.partition < |y.dlq| && ValidTopic(y.dlq) && Republished(y.main, y.dlq)
    ensures Republished(y.main, Undelivered(y, e).dlq)
  {
    var u := Undelivered(y, e).dlq;
    forall p, i | 0 <= p < |u| && 0 <= i < |u[p].log| && (i < u[p].committed || i < u[p].position)
      ensures Logged(y.main, u[p].log[i])
    {
      assert i < |y.dlq[p].log| && u[p].log[i] == y.dlq[p].log[i];
    }
  }

  lemma OffsetsGrowOn(t: Topic, u: Topic, v: Topic)
    requires OffsetsGrow(t, u) && SameOffsets(u, v)
    ensures OffsetsGrow(t, v)
  {
  }

  lemma UndeliveredOk(x: Streams, y: Streams, e: SessionEvent, c: Counters, dryRun: bool, faults: nat)
    requires !e.Delivery? && e.partition < |y.dlq| && SessionOk(x, y, c, dryRun, faults)
    ensures SessionOk(x, Undelivered(y, e), c, dryRun, faults)
  {
    UndeliveredMoves(y, e);
    if Republished(y.main, y.dlq) { UndeliveredKeepsRepublished(y, e); }
    if Balanced(x, y, c.committed) { UndeliveredBalances(x, y, e, c.committed); }
    if !dryRun { OffsetsGrowOn(x.dlq, y.dlq, Undelivered(y, e).dlq); }
  }

  lemma HandledBalances(x: Streams, y: Streams, e: SessionEvent, n: nat)
    requires e.Delivery? && e.confirmed && ValidEvent(e, |y.dlq|, |y.main|)
    requires y.dlq[e.partition].position < |y.dlq[e.partition].log| && Balanced(x, y, n)
    ensures Balanced(x, Handled(y, e, false), n + 1)
  {
    var z := Handled(y, e, false);
    assert z.dlq == y.dlq[e.partition := z.dlq[e.partition]];
    TotalsUpdate(y.dlq, e.partition, z.dlq[e.partition]);
    TotalsUpdate(y.main, e.mainPartition, z.main[e.mainPartition]);
  }

  /** Handling one delivery only appends to the main topic, moves offsets only forward, and in a
      dry run not at all. */
  lemma HandledMoves(y: Streams, e: SessionEvent, dryRun: bool)
    requires e.Delivery? && ValidEvent(e, |y.dlq|, |y.main|) && ValidTopic(y.dlq)
    requires y.dlq[e.partition].position < |y.dlq[e.partition].log|
    ensures var z := Handled(y, e, dryRun);
      && ValidTopic(z.dlq) && Extends(y.main, z.main) && Extends(y.dlq, z.dlq)
      && (dryRun ==> z.main == y.main && SameOffsets(y.dlq, z.dlq))
      && (!dryRun && InStep(y.dlq) ==> InStep(z.dlq) && OffsetsGrow(y.dlq, z.dlq))
      && (!dryRun && Republished(y.main, y.dlq) ==> Republished(z.main, z.dlq))
  {
    if !dryRun && Republished(y.main, y.dlq) {
      RedriveKeepsRepublished(y, e.partition, e.mainPartition, Redriving(e.sent, e.committed, e.confirmed));
    }
  }

  lemma DeliveryOk(x: Streams, y: Streams, e: SessionEvent, c: Counters, dryRun: bool, limit: nat, faults: nat)
    requires e.Delivery? && ValidEvent(e, |y.dlq|, |y.main|) && SessionOk(x, y, c, dryRun, faults)
    requires y.dlq[e.partition].position < |y.dlq[e.partition].log|
    ensures SessionOk(x, Handled(y, e, dryRun), Counted(c, e, dryRun, limit), dryRun,
                      if IsFault(e) then faults + 1 else faults)
  {
    HandledMoves(y, e, dryRun);
    if !dryRun && e.confirmed && faults == 0 { HandledBalances(x, y, e, c.committed); }
  }

  class DlqRedriveService {
    var main: Topic
    var dlq: Topic

    predicate Valid()
      reads this
    {
      ValidTopic(dlq)
    }

    constructor (main: Topic, dlq: Topic)
      requires ValidTopic(dlq)
      ensures this.main == main && this.dlq == dlq && Valid()
    {
      this.main := main;
      this.dlq := dlq;
    }

    /** Handle one delivered record; `ok` is false when an exception makes the consumer deliver the
        record again. */
    method HandlePayload(e: SessionEvent, dryRun: bool) returns (ok: bool, republished: bool)
      requires e.Delivery? && ValidEvent(e, |dlq|, |main|) && dlq[e.partition].position < |dlq[e.partition].log|
      modifies this
      ensures ok <==> dryRun || e.confirmed
      ensures republished <==> !dryRun && e.acknowledged
      ensures dryRun ==> main == old(main) && dlq == Advance(old(dlq), e.partition)
      ensures !dryRun ==>
        var d := Redriving(e.sent, e.committed, e.confirmed);
        Streams(main, dlq, map[]) == ApplyRedrive(Streams(old(main), old(dlq), map[]), e.partition, e.mainPartition, d)
      // one record is sent, unchanged; the next offset is committed; the consumer gets past the record
      ensures !dryRun ==>
        && |main| == |old(main)| && (forall p :: 0 <= p < |main| && p != e.mainPartition ==> main[p] == old(main)[p])
        && |dlq| == |old(dlq)| && (forall p :: 0 <= p < |dlq| && p != e.partition ==> dlq[p] == old(dlq)[p])
      ensures !dryRun ==>
        var at := old(dlq)[e.partition].position;
        var to := old(main)[e.mainPartition];
        && main[e.mainPartition] == to.(log := if e.sent then to.log + [old(dlq)[e.partition].log[at]] else to.log)
        && dlq[e.partition].log == old(dlq)[e.partition].log
        && dlq[e.partition].committed == (if e.committed then at + 1 else old(dlq)[e.partition].committed)
        && dlq[e.partition].position == if e.confirmed then at + 1 else at
      ensures dryRun ==>
        && |dlq| == |old(dlq)| && (forall p :: 0 <= p < |dlq| && p != e.partition ==> dlq[p] == old(dlq)[p])
        && dlq[e.partition] == old(dlq)[e.partition].(position := old(dlq)[e.partition].position + 1)
    {
      ok, republished := true, false;
      var at := dlq[e.partition].position;
      if !dryRun {
        if e.sent { main := Append(main, e.mainPartition, dlq[e.partition].log[at]); }
        if !e.acknowledged { return false, false; }
        republished := true;
        if e.committed { dlq := Commit(dlq, e.partition, at + 1); }
        if !e.confirmed { return false, true; }
      }
      dlq := Advance(dlq, e.partition);
    }

    /** One delivery: handle it and count it. */
    method Consume(e: SessionEvent, dryRun: bool, limit: nat, c: Counters) returns (after: Counters)
      requires e.Delivery? && ValidEvent(e, |dlq|, |main|)
      requires dlq[e.partition].position < |dlq[e.partition].log|
      modifies this
      ensures after == Counted(c, e, dryRun, limit)
      ensures after.consumed == c.consumed + 1
      ensures after.republished == c.republished + (if !dryRun && e.acknowledged then 1 else 0)
      ensures after.committed == c.committed + (if !dryRun && e.confirmed then 1 else 0)
      ensures after.stopped <==> (dryRun || e.confirmed) && after.consumed >= limit
      ensures Streams(main, dlq, map[]) == Handled(Streams(old(main), old(dlq), map[]), e, dryRun)
    {
      var ok, republished := HandlePayload(e, dryRun);
      after := Counters(c.consumed + 1, if republished then c.republished + 1 else c.republished,
                        if ok && !dryRun then c.committed + 1 else c.committed,
                        ok && c.consumed + 1 >= limit);
    }

    /** One event of a session that began with topics `start` and has met `faults` faults. A delivery
        that has nothing to deliver does not happen. */
    method See(e: SessionEvent, dryRun: bool, limit: nat, c: Counters, ghost start: Streams, ghost faults: nat)
      returns (after: Counters)
      requires Valid() && ValidEvent(e, |dlq|, |main|) && !c.stopped
      requires SessionOk(start, Streams(main, dlq, map[]), c, dryRun, faults)
      modifies this
      ensures Valid() && |dlq| == |old(dlq)| && |main| == |old(main)|
      ensures after == c || (e.Delivery? && after == Counted(c, e, dryRun, limit))
      ensures SessionOk(start, Streams(main, dlq, map[]), after, dryRun, if IsFault(e) then faults + 1 else faults)
    {
      after := c;
      ghost var before := Streams(main, dlq, map[]);
      if !e.Delivery? {
        dlq := if e.Arrival? then Append(dlq, e.partition, e.record) else Rewind(dlq, e.partition);
        UndeliveredOk(start, before, e, c, dryRun, faults);
      } else if dlq[e.partition].position < |dlq[e.partition].log| {
        DeliveryOk(start, before, e, c, dryRun, limit, faults);
        after := Consume(e, dryRun, limit, c);
      } else {
        MoreFaults(start, before, c, dryRun, faults, if IsFault(e) then faults + 1 else faults);
      }
    }

    /** Run a session. Counted is ahead of republished, and republished of committed; what is
        committed was republished, before this session or in it; a dry run changes no log and no
        offset; and deliveries end at the limit, even if what was republished comes back. */
    method Redrive(dryRun: bool, limit: nat, events: seq<SessionEvent>) returns (c: Counters)
      requires Valid() && limit >= 1 && ValidEvents(events, |dlq|, |main|)
      modifies this
      ensures Valid()
      ensures CountsEnd(c, dryRun, limit, Faults(events))
      ensures SessionOk(Streams(old(main), old(dlq), map[]), Streams(main, dlq, map[]), c, dryRun, Faults(events))
    {
      ghost var start := Streams(main, dlq, map[]);
      SessionStarts(start, dryRun);
      dlq := RewindAll(dlq);
      c := Counters(0, 0, 0, false);
      for k := 0 to |events|
        invariant !c.stopped && CountsOk(c, dryRun, limit, Faults(events[..k]))
        invariant |dlq| == |old(dlq)| && |main| == |old(main)|
        invariant SessionOk(start, Streams(main, dlq, map[]), c, dryRun, Faults(events[..k]))
      {
        FaultsPrefix(events, k);
        var before := c;
        c := See(events[k], dryRun, limit, c, start, Faults(events[..k]));
        if c.stopped {
          LastCount(before, events[k], dryRun, limit, Faults(events[..k]), Faults(events));
          MoreFaults(start, Streams(main, dlq, map[]), c, dryRun, Faults(events[..k + 1]), Faults(events));
          return;
        }
      }
      assert events[..|events|] == events;
      IdleCount(c, dryRun, limit, Faults(events));
    }
  }

  // ---- In the whole pipeline ----

  lemma PublisherKeepsRepublished(cfg: Config, s: System, w: string, a: PublisherAction)
    requires PublisherEnabled(cfg, s, w, a) && Republished(s.streams.main, s.streams.dlq)
    ensures var x := ApplyPublisher(cfg, s, w, a).streams;
      x.dlq == s.streams.dlq && Republished(x.main, x.dlq)
  {
    RepublishedGrows(s.streams.main, ApplyPublisher(cfg, s, w, a).streams.main, s.streams.dlq);
  }

  lemma StreamKeepsRepublished(cfg: Config, x: Streams, a: StreamAction)
    requires StreamEnabled(cfg, x, a) && ValidTopic(x.dlq) && Republished(x.main, x.dlq)
    ensures var y := ApplyStream(cfg, x, a); ValidTopic(y.dlq) && Republished(y.main, y.dlq)
  {
    if a.RedriveRecord? {
      RedriveKeepsRepublished(x, a.partition, a.mainPartition, a.redriving);
    } else {
      RepublishedGrows(x.main, ApplyStream(cfg, x, a).main, x.dlq);
    }
  }

  lemma {:induction false} RepublishedRun(cfg: Config, s: System, actions: seq<Action>, t: System)
    requires ValidTopic(s.streams.dlq) && Republished(s.streams.main, s.streams.dlq)
    requires Reaches(cfg, s, actions, t)
    ensures ValidTopic(t.streams.dlq) && Republished(t.streams.main, t.streams.dlq)
    decreases |actions|
  {
    if actions != [] {
      match actions[0] {
        case Store(_) =>
        case Publisher(w, b) => PublisherKeepsRepublished(cfg, s, w, b);
        case Stream(b) => StreamKeepsRepublished(cfg, s.streams, b);
      }
      RepublishedRun(cfg, Apply(cfg, s, actions[0]), actions[1..], t);
    }
  }

  /** On every run of the pipeline, whatever sessions are cut short and however commits fail, every
      dead-letter record below its partition's committed offset has been republished unchanged. */
  lemma CommittedWasRepublished(cfg: Config, s: System, actions: seq<Action>, t: System, p: nat, i: nat)
    requires Init(s) && Reaches(cfg, s, actions, t)
    requires p < |t.streams.dlq| && i < t.streams.dlq[p].committed && i < |t.streams.dlq[p].log|
    ensures Logged(t.streams.main, t.streams.dlq[p].log[i])
  {
    RepublishedRun(cfg, s, actions, t);
  }
}
