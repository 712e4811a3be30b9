/** Malformed records go round between the two topics: once there is one, the topics are never again both
    consumed to their ends. */
module MalformedRecords {
  import opened Codecs
  import opened Events
  import opened Topics
  import opened Protocol
  import opened Delivery

  ghost function Malformed(c: Codec): Record -> bool {
    (r: Record) => ParseMessageCreatedEvent(c, r.value).Malformed?
  }

  ghost function WellFormed(c: Codec): Record -> bool {
    (r: Record) => !ParseMessageCreatedEvent(c, r.value).Malformed?
  }

  /** No log of either topic has a malformed record, handled or not. */
  ghost predicate Clean(c: Codec, x: Streams) {
    AllLogged(x.main, WellFormed(c)) && AllLogged(x.dlq, WellFormed(c))
  }

  /** Both topics have been consumed to their ends. */
  predicate FullyConsumed(x: Streams) {
    Consumed(x.main) && Consumed(x.dlq)
  }

  ghost predicate MalformedWaits(c: Codec, x: Streams) {
    Waiting(x.main, Malformed(c)) || Waiting(x.dlq, Malformed(c))
  }

  /** A malformed record that was ever logged is still to be handled somewhere; and what is in the
      dead-letter topic came from the main one. */
  ghost predicate RoundInv(c: Codec, x: Streams) {
    && ValidTopic(x.main) && ValidTopic(x.dlq)
    && (AllLogged(x.main, WellFormed(c)) ==> AllLogged(x.dlq, WellFormed(c)))
    && (!AllLogged(x.main, WellFormed(c)) ==> MalformedWaits(c, x))
  }

  lemma AllLoggedAppend(t: Topic, p: nat, r: Record, good: Record -> bool)
    requires p < |t|
    ensures AllLogged(Append(t, p, r), good) <==> AllLogged(t, good) && good(r)
  {
    var u := Append(t, p, r);
    assert u[p].log[|t[p].log|] == r;
    assert forall q, i :: 0 <= q < |t| && 0 <= i < |t[q].log| ==> u[q].log[i] == t[q].log[i];
    assert forall q, i :: 0 <= q < |t| && 0 <= i < |u[q].log| ==> u[q].log[i] == r || i < |t[q].log|;
  }

  lemma SameLogsAgree(t: Topic, u: Topic, good: Record -> bool)
    requires SameLogs(t, u)
    ensures AllLogged(t, good) <==> AllLogged(u, good)
  {
    assert forall p, i :: 0 <= p < |t| && 0 <= i < |t[p].log| ==> t[p].log[i] == u[p].log[i];
    assert forall p, i :: 0 <= p < |u| && 0 <= i < |u[p].log| ==> u[p].log[i] == t[p].log[i];
  }

  /** Taking in a record: if it is malformed, it waits. */
  lemma AppendKeepsRound(c: Codec, x: Streams, p: nat, r: Record)
    requires RoundInv(c, x) && p < |x.main|
    ensures RoundInv(c, x.(main := Append(x.main, p, r)))
  {
    AllLoggedAppend(x.main, p, r, WellFormed(c));
    AppendWaits(x.main, p, r, Malformed(c));
  }

  /** Handling a record completely without dead-lettering it means that it is not malformed. */
  lemma ConsumeKeepsWaiting(cfg: Config, x: Streams, p: nat, q: nat, h: Handling)
    requires ValidTopic(x.dlq) && StreamEnabled(cfg, x, Consume(p, q, h)) && MalformedWaits(cfg.codec, x)
    ensures MalformedWaits(cfg.codec, ApplyConsume(cfg, x, p, q, h))
  {
    var c := cfg.codec;
    AppendWaits(x.dlq, q, DeadLetter(c, x.main[p].log[x.main[p].position]), Malformed(c));
    if Waiting(x.main, Malformed(c)) { AdvanceWaits(x.main, p, Malformed(c)); }
  }

  /** What is dead-lettered comes from the main topic. */
  lemma ConsumeKeepsLogs(cfg: Config, x: Streams, p: nat, q: nat, h: Handling)
    requires StreamEnabled(cfg, x, Consume(p, q, h))
    ensures var y := ApplyConsume(cfg, x, p, q, h);
      && (AllLogged(y.main, WellFormed(cfg.codec)) <==> AllLogged(x.main, WellFormed(cfg.codec)))
      && (Clean(cfg.codec, x) ==> AllLogged(y.dlq, WellFormed(cfg.codec)))
  {
    var c := cfg.codec;
    var r := x.main[p].log[x.main[p].position];
    SameLogsAgree(x.main, Advance(x.main, p), WellFormed(c));
    AllLoggedAppend(x.dlq, q, DeadLetter(c, r), WellFormed(c));
    if Clean(c, x) { assert WellFormed(c)(r); }
  }

  lemma ConsumeKeepsValid(cfg: Config, x: Streams, p: nat, q: nat, h: Handling)
    requires StreamEnabled(cfg, x, Consume(p, q, h)) && ValidTopic(x.main) && ValidTopic(x.dlq)
    ensures var y := ApplyConsume(cfg, x, p, q, h); ValidTopic(y.main) && ValidTopic(y.dlq)
  {
  }

  lemma ConsumeKeepsRound(cfg: Config, x: Streams, p: nat, q: nat, h: Handling)
    requires RoundInv(cfg.codec, x) && StreamEnabled(cfg, x, Consume(p, q, h))
    ensures RoundInv(cfg.codec, ApplyConsume(cfg, x, p, q, h))
  {
    ConsumeKeepsValid(cfg, x, p, q, h);
    ConsumeKeepsLogs(cfg, x, p, q, h);
    if MalformedWaits(cfg.codec, x) { ConsumeKeepsWaiting(cfg, x, p, q, h); }
  }

  lemma RedriveKeepsRound(cfg: Config, x: Streams, p: nat, q: nat, d: Redriving)
    requires RoundInv(cfg.codec, x) && StreamEnabled(cfg, x, RedriveRecord(p, q, d))
    ensures RoundInv(cfg.codec, ApplyRedrive(x, p, q, d))
  {
    var c := cfg.codec;
    var r := x.dlq[p].log[x.dlq[p].position];
    AllLoggedAppend(x.main, q, r, WellFormed(c));
    AppendWaits(x.main, q, r, Malformed(c));
    if Waiting(x.dlq, Malformed(c)) { RedriveWaits(x, p, q, d, Malformed(c)); }
  }

  /** The other steps move offsets only, and never past a record that waits. */
  lemma OffsetsKeepRound(cfg: Config, x: Streams, a: StreamAction)
    requires RoundInv(cfg.codec, x) && StreamEnabled(cfg, x, a)
    requires a.CommitMain? || a.RestartConsumer? || a.RestartRedrive?
    ensures RoundInv(cfg.codec, ApplyStream(cfg, x, a))
  {
    var wanted := Malformed(cfg.codec);
    SameLogsAgree(x.main, ApplyStream(cfg, x, a).main, WellFormed(cfg.codec));
    SameLogsAgree(x.dlq, ApplyStream(cfg, x, a).dlq, WellFormed(cfg.codec));
    if a.RestartRedrive? {
      if Waiting(x.dlq, wanted) { RewindWaits(x.dlq, a.partition, wanted); }
    } else if Waiting(x.main, wanted) {
      if a.CommitMain? {
        CommitWaits(x.main, a.partition, a.offset, wanted);
      } else {
        RewindWaits(x.main, a.partition, wanted);
      }
    }
  }

  lemma StreamKeepsRound(cfg: Config, x: Streams, a: StreamAction)
    requires RoundInv(cfg.codec, x) && StreamEnabled(cfg, x, a)
    ensures RoundInv(cfg.codec, ApplyStream(cfg, x, a))
  {
    match a {
      case ForeignRecord(p, r) => AppendKeepsRound(cfg.codec, x, p, r);
      case Consume(p, q, h) => ConsumeKeepsRound(cfg, x, p, q, h);
      case RedriveRecord(p, q, d) => RedriveKeepsRound(cfg, x, p, q, d);
      case _ => OffsetsKeepRound(cfg, x, a);
    }
  }

  lemma PublisherKeepsRound(cfg: Config, s: System, w: string, a: PublisherAction)
    requires RoundInv(cfg.codec, s.streams) && PublisherEnabled(cfg, s, w, a)
    ensures RoundInv(cfg.codec, ApplyPublisher(cfg, s, w, a).streams)
  {
    if a.Send? {
      var e := Current(s.workers[w]);
      AppendKeepsRound(cfg.codec, s.streams, a.partition, EventRecord(cfg.codec, e.key, e.event));
    }
  }

  lemma StreamGrows(cfg: Config, x: Streams, a: StreamAction)
    requires StreamEnabled(cfg, x, a)
    ensures Extends(x.main, ApplyStream(cfg, x, a).main)
  {
  }

  lemma LoggedMalformedStays(c: Codec, t: Topic, u: Topic)
    requires Extends(t, u) && !AllLogged(t, WellFormed(c))
    ensures !AllLogged(u, WellFormed(c))
  {
    var p, i :| 0 <= p < |t| && 0 <= i < |t[p].log| && !WellFormed(c)(t[p].log[i]);
    assert t[p].log <= u[p].log && u[p].log[i] == t[p].log[i];
  }

  lemma PublisherGrows(cfg: Config, s: System, w: string, a: PublisherAction)
    requires PublisherEnabled(cfg, s, w, a)
    ensures Extends(s.streams.main, ApplyPublisher(cfg, s, w, a).streams.main)
  {
  }

  lemma RoundStep(cfg: Config, s: System, a: Action)
    requires RoundInv(cfg.codec, s.streams) && Enabled(cfg, s, a)
    ensures var t := Apply(cfg, s, a).streams;
      && RoundInv(cfg.codec, t)
      && (!AllLogged(s.streams.main, WellFormed(cfg.codec)) ==> !AllLogged(t.main, WellFormed(cfg.codec)))
  {
    match a {
      case Store(_) =>
      case Publisher(w, b) =>
        PublisherKeepsRound(cfg, s, w, b);
        PublisherGrows(cfg, s, w, b);
      case Stream(b) =>
        StreamKeepsRound(cfg, s.streams, b);
        StreamGrows(cfg, s.streams, b);
    }
    if !AllLogged(s.streams.main, WellFormed(cfg.codec)) {
      LoggedMalformedStays(cfg.codec, s.streams.main, Apply(cfg, s, a).streams.main);
    }
  }

  lemma {:induction false} RoundRun(cfg: Config, s: System, actions: seq<Action>, t: System)
    requires RoundInv(cfg.codec, s.streams) && Reaches(cfg, s, actions, t)
    ensures RoundInv(cfg.codec, t.streams)
    ensures !AllLogged(s.streams.main, WellFormed(cfg.codec)) ==> !AllLogged(t.streams.main, WellFormed(cfg.codec))
    decreases |actions|
  {
    if actions != [] {
      RoundStep(cfg, s, actions[0]);
      RoundRun(cfg, Apply(cfg, s, actions[0]), actions[1..], t);
    }
  }

  lemma RoundOfReachable(cfg: Config, start: System, s: System)
    requires Init(start) && CanReach(cfg, start, s)
    ensures RoundInv(cfg.codec, s.streams)
  {
    var actions :| Reaches(cfg, start, actions, s);
    RoundRun(cfg, start, actions, s);
  }

  /** Once a malformed record is in a log of the main topic, no continuation has both topics consumed
      to their ends. */
  lemma NeverFullyConsumed(cfg: Config, start: System, s: System, t: System)
    requires Init(start) && CanReach(cfg, start, s) && CanReach(cfg, s, t)
    requires !AllLogged(s.streams.main, WellFormed(cfg.codec))
    ensures !FullyConsumed(t.streams)
  {
    RoundOfReachable(cfg, start, s);
    var actions :| Reaches(cfg, s, actions, t);
    RoundRun(cfg, s, actions, t);
    if Waiting(t.streams.main, Malformed(cfg.codec)) {
      WaitingIsNotConsumed(t.streams.main, Malformed(cfg.codec));
    } else {
      WaitingIsNotConsumed(t.streams.dlq, Malformed(cfg.codec));
    }
  }

  /** In particular none does after another producer has sent a malformed record. */
  lemma MalformedStays(cfg: Config, start: System, s: System, p: nat, r: Record, t: System)
    requires Init(start) && CanReach(cfg, start, s) && p < |s.streams.main|
    requires ParseMessageCreatedEvent(cfg.codec, r.value).Malformed?
    requires CanReach(cfg, Apply(cfg, s, Stream(ForeignRecord(p, r))), t)
    ensures !FullyConsumed(t.streams)
  {
    var sent := Step(cfg, start, s, Stream(ForeignRecord(p, r)));
    AllLoggedAppend(s.streams.main, p, r, WellFormed(cfg.codec));
    NeverFullyConsumed(cfg, start, sent, t);
  }
}
