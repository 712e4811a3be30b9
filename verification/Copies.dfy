/** How often an event is in the main topic: the logs hold exactly one record for each send, one for each
    record of another producer, and one for each redriven. */
module Copies {
  import opened Events
  import opened OutboxRows
  import opened Topics
  import opened Protocol
  import opened Delivery
  import D = Duplication

  // ---- All records ----

  /** One step of a publisher logs exactly the records that it counts as sent. */
  lemma SendsAreLogged(cfg: Config, s: System, w: InstanceId, a: PublisherAction)
    requires PublisherEnabled(cfg, s, w, a)
    ensures var t := ApplyPublisher(cfg, s, w, a);
      && LoggedTotal(t.streams.main) - LoggedTotal(s.streams.main) == |t.history.sends| - |s.history.sends|
      && t.streams.dlq == s.streams.dlq && t.streams.index == s.streams.index
  {
    if a.Send? {
      var e := Current(s.workers[w]);
      AppendTotal(s.streams.main, a.partition, EventRecord(cfg.codec, e.key, e.event));
    }
  }

  /** The step logs a record that no publisher sent: another producer's, or one that is redriven. */
  predicate LogsOther(a: Action) {
    a.Stream? && (a.stream.ForeignRecord? || (a.stream.RedriveRecord? && a.stream.redriving.sent))
  }

  function Others(actions: seq<Action>): nat {
    if actions == [] then 0 else (if LogsOther(actions[0]) then 1 else 0) + Others(actions[1..])
  }

  lemma StreamLogs(cfg: Config, x: Streams, a: StreamAction)
    requires StreamEnabled(cfg, x, a)
    ensures LoggedTotal(ApplyStream(cfg, x, a).main) == LoggedTotal(x.main) + if LogsOther(Stream(a)) then 1 else 0
  {
    match a {
      case ForeignRecord(p, r) => AppendTotal(x.main, p, r);
      case RedriveRecord(p, q, d) => AppendTotal(x.main, q, x.dlq[p].log[x.dlq[p].position]);
      case _ => SameLogsCount(x.main, ApplyStream(cfg, x, a).main, r => true);
    }
  }

  /** On every run, the main topic's logs have grown by exactly the sends, the records of other producers,
      and the redriven ones. */
  lemma {:induction false} MainTopicAccounts(cfg: Config, s: System, actions: seq<Action>, t: System)
    requires Reaches(cfg, s, actions, t)
    ensures LoggedTotal(t.streams.main) - LoggedTotal(s.streams.main)
         == |t.history.sends| - |s.history.sends| + Others(actions)
    decreases |actions|
  {
    if actions != [] {
      match actions[0] {
        case Store(_) =>
        case Publisher(w, b) => SendsAreLogged(cfg, s, w, b);
        case Stream(b) => StreamLogs(cfg, s.streams, b);
      }
      MainTopicAccounts(cfg, Apply(cfg, s, actions[0]), actions[1..], t);
    }
  }

  // ---- The records for one message ----

  /** The step redrives a record for message `m`. */
  ghost predicate RedrivesFor(cfg: Config, s: System, a: Action, m: string)
    requires Enabled(cfg, s, a)
  {
    && a.Stream? && a.stream.RedriveRecord? && a.stream.redriving.sent
    && var part := s.streams.dlq[a.stream.partition];
       For(cfg.codec, m)(part.log[part.position])
  }

  /** How many records for message `m` the run redrives. */
  ghost function Redriven(cfg: Config, s: System, actions: seq<Action>, m: string): nat
    decreases |actions|
  {
    if actions == [] || !Enabled(cfg, s, actions[0]) then 0 else
    (if RedrivesFor(cfg, s, actions[0], m) then 1 else 0) + Redriven(cfg, Apply(cfg, s, actions[0]), actions[1..], m)
  }

  /** How many sends were for a row that announces message `m`. */
  function SentFor(claims: seq<RowId>, sends: seq<nat>, announced: map<RowId, string>, m: string): nat
    requires forall n :: 0 <= n < |sends| ==> sends[n] < |claims|
  {
    if sends == [] then 0 else
    var n := |sends| - 1;
    var row := claims[sends[n]];
    SentFor(claims, sends[..n], announced, m) + if row in announced && announced[row] == m then 1 else 0
  }

  predicate Announces(s: System, id: RowId, e: MessageCreatedEvent) {
    id in s.history.announced && s.history.announced[id] == e.payload.id
  }

  predicate EntryAnnounced(s: System, e: Entry) {
    Announces(s, e.id, e.event)
  }

  /** No two rows announce one message. */
  predicate Injective(announced: map<RowId, string>) {
    forall x, y :: x in announced && y in announced && announced[x] == announced[y] ==> x == y
  }

  /** Each row announces its own message, and so does each snapshot of it, even when it has expired. */
  ghost predicate AnnouncedInv(s: System) {
    && s.history.announced.Keys == s.issuedIds
    && (forall id :: id in s.history.announced ==> s.history.announced[id] in s.messages)
    && Injective(s.history.announced)
    && (forall id :: id in s.rows ==> Announces(s, id, s.rows[id].event))
    && (forall w, i :: w in s.workers && 0 <= i < |s.workers[w].batch| ==> EntryAnnounced(s, s.workers[w].batch[i]))
    && (forall n :: 0 <= n < |s.history.claims| ==> s.history.claims[n] in s.history.announced)
  }

  lemma StoreKeepsAnnounced(cfg: Config, s: System, a: StoreAction)
    requires AnnouncedInv(s) && StoreEnabled(s, a)
    ensures AnnouncedInv(ApplyStore(cfg, s, a))
  {
    var t := ApplyStore(cfg, s, a);
    forall w, i | w in t.workers && 0 <= i < |t.workers[w].batch| ensures EntryAnnounced(t, t.workers[w].batch[i]) {
      assert EntryAnnounced(s, s.workers[w].batch[i]);
    }
  }

  /** An entry after a publisher's step was there before it, or is of the row just claimed. */
  lemma EntryBefore(cfg: Config, s: System, w: InstanceId, a: PublisherAction, v: InstanceId, i: int)
    requires PublisherEnabled(cfg, s, w, a)
    requires v in ApplyPublisher(cfg, s, w, a).workers && 0 <= i < |ApplyPublisher(cfg, s, w, a).workers[v].batch|
    ensures var e := ApplyPublisher(cfg, s, w, a).workers[v].batch[i];
      || (v in s.workers && i < |s.workers[v].batch| && e == s.workers[v].batch[i])
      || (a.ClaimRow? && e.id == a.id && a.id in s.rows && e.event == s.rows[a.id].event)
  {
  }

  lemma PublisherKeepsAnnounced(cfg: Config, s: System, w: InstanceId, a: PublisherAction)
    requires AnnouncedInv(s) && PublisherEnabled(cfg, s, w, a)
    ensures AnnouncedInv(ApplyPublisher(cfg, s, w, a))
  {
    var t := ApplyPublisher(cfg, s, w, a);
    PublisherKeepsEvents(cfg, s, w, a);
    forall v, i | v in t.workers && 0 <= i < |t.workers[v].batch| ensures EntryAnnounced(t, t.workers[v].batch[i]) {
      EntryBefore(cfg, s, w, a, v, i);
    }
  }

  ghost predicate CopiesInv(cfg: Config, s: System) {
    Inv(cfg, s) && D.OnceInv(s) && AnnouncedInv(s)
  }

  lemma AnnouncedStep(cfg: Config, s: System, a: Action)
    requires AnnouncedInv(s) && Enabled(cfg, s, a)
    ensures AnnouncedInv(Apply(cfg, s, a))
  {
    match a {
      case Store(b) => StoreKeepsAnnounced(cfg, s, b);
      case Publisher(w, b) => PublisherKeepsAnnounced(cfg, s, w, b);
      case Stream(_) =>
    }
  }

  lemma CopiesStep(cfg: Config, s: System, a: Action)
    requires CopiesInv(cfg, s) && ValidConfig(cfg) && Enabled(cfg, s, a)
    ensures CopiesInv(cfg, Apply(cfg, s, a))
  {
    InvStep(cfg, s, a);
    D.OnceStep(cfg, s, a);
    AnnouncedStep(cfg, s, a);
  }

  /** The sends so far are counted as before, whatever rows are claimed or created. */
  lemma {:induction false} SentForStays(claims: seq<RowId>, more: seq<RowId>, sends: seq<nat>,
                                        announced: map<RowId, string>, others: map<RowId, string>, m: string)
    requires claims <= more && (forall n :: 0 <= n < |sends| ==> sends[n] < |claims|)
    requires forall n :: 0 <= n < |claims| ==> claims[n] in announced
    requires forall id :: id in announced ==> id in others && others[id] == announced[id]
    ensures SentFor(more, sends, others, m) == SentFor(claims, sends, announced, m)
    decreases |sends|
  {
    if sends != [] { SentForStays(claims, more, sends[..|sends| - 1], announced, others, m); }
  }

  /** What a publisher sends is a record for its entry's message and for no other. */
  lemma SentIsFor(cfg: Config, s: System, w: InstanceId, m: string)
    requires EntriesInv(cfg, s.messages, s.issuedIds, s.rows, s.workers) && ValidConfig(cfg) && IsAt(s, w, Sending)
    ensures var e := Current(s.workers[w]);
      For(cfg.codec, m)(EventRecord(cfg.codec, e.key, e.event)) <==> e.event.payload.id == m
  {
    var e := Current(s.workers[w]);
    assert EntryOk(cfg, s.messages, s.issuedIds, s.rows, e);
    WireRoundTrip(cfg.codec, e.event);
  }

  /** The records for message `m` that are in the main topic, less those that were sent. */
  ghost function Surplus(cfg: Config, s: System, m: string): int
    requires D.SendsInv(s.history.claims, s.history.sends, s.workers)
  {
    Occurring(s.streams.main, For(cfg.codec, m)) - SentFor(s.history.claims, s.history.sends, s.history.announced, m)
  }

  /** In `t` as in `s`, what is in the main topic is more by as much as what was sent is. */
  ghost predicate KeepsSurplus(cfg: Config, s: System, t: System, m: string)
    requires D.SendsInv(s.history.claims, s.history.sends, s.workers)
  {
    && (forall n :: 0 <= n < |t.history.sends| ==> t.history.sends[n] < |t.history.claims|)
    && var sent := SentFor(t.history.claims, t.history.sends, t.history.announced, m);
       Occurring(t.streams.main, For(cfg.codec, m)) - sent == Surplus(cfg, s, m)
  }

  lemma SendKeepsSurplus(cfg: Config, s: System, w: InstanceId, p: nat, appended: bool, acknowledged: bool, m: string)
    requires EntriesInv(cfg, s.messages, s.issuedIds, s.rows, s.workers) && ValidConfig(cfg)
    requires D.ClaimsInv(s.history.claims, s.workers) && D.SendsInv(s.history.claims, s.history.sends, s.workers)
    requires IsAt(s, w, Sending) && EntryAnnounced(s, Current(s.workers[w])) && p < |s.streams.main|
    ensures KeepsSurplus(cfg, s, ApplySend(cfg, s, w, p, appended, acknowledged), m)
  {
    var e := Current(s.workers[w]);
    SentIsFor(cfg, s, w, m);
    OccurringAppend(s.streams.main, p, EventRecord(cfg.codec, e.key, e.event), For(cfg.codec, m));
    assert (s.history.sends + [e.claim])[..|s.history.sends|] == s.history.sends;
  }

  /** The history of sends, and the main topic, are as they were. */
  predicate SendsNothing(s: System, t: System) {
    && t.history.sends == s.history.sends && t.streams == s.streams && s.history.claims <= t.history.claims
    && forall id :: id in s.history.announced ==>
         id in t.history.announced && t.history.announced[id] == s.history.announced[id]
  }

  lemma NothingSentKeepsSurplus(cfg: Config, s: System, t: System, m: string)
    requires AnnouncedInv(s) && D.SendsInv(s.history.claims, s.history.sends, s.workers) && SendsNothing(s, t)
    ensures KeepsSurplus(cfg, s, t, m)
  {
    SentForStays(s.history.claims, t.history.claims, s.history.sends, s.history.announced, t.history.announced, m);
  }

  lemma StoreSendsNothing(cfg: Config, s: System, a: StoreAction)
    requires StoreEnabled(s, a) && s.history.announced.Keys == s.issuedIds
    ensures SendsNothing(s, ApplyStore(cfg, s, a))
  {
  }

  lemma OtherPublisherSendsNothing(cfg: Config, s: System, w: InstanceId, a: PublisherAction)
    requires PublisherEnabled(cfg, s, w, a) && !a.Send?
    ensures SendsNothing(s, ApplyPublisher(cfg, s, w, a))
  {
  }

  lemma StreamSurplus(cfg: Config, s: System, a: StreamAction, m: string)
    requires StreamEnabled(cfg, s.streams, a)
    ensures Occurring(ApplyStream(cfg, s.streams, a).main, For(cfg.codec, m))
         == Occurring(s.streams.main, For(cfg.codec, m)) + if RedrivesFor(cfg, s, Stream(a), m) then 1 else 0
  {
    var x := s.streams;
    var wanted := For(cfg.codec, m);
    match a {
      case ForeignRecord(p, r) => OccurringAppend(x.main, p, r, wanted);
      case RedriveRecord(p, q, d) => OccurringAppend(x.main, q, x.dlq[p].log[x.dlq[p].position], wanted);
      case _ => SameLogsCount(x.main, ApplyStream(cfg, x, a).main, wanted);
    }
  }

  lemma PublisherSurplus(cfg: Config, s: System, w: InstanceId, a: PublisherAction, m: string)
    requires CopiesInv(cfg, s) && ValidConfig(cfg) && PublisherEnabled(cfg, s, w, a)
    ensures KeepsSurplus(cfg, s, ApplyPublisher(cfg, s, w, a), m)
  {
    if a.Send? {
      assert EntryAnnounced(s, s.workers[w].batch[s.workers[w].next]);
      SendKeepsSurplus(cfg, s, w, a.partition, a.appended, a.acknowledged, m);
    } else {
      OtherPublisherSendsNothing(cfg, s, w, a);
      NothingSentKeepsSurplus(cfg, s, ApplyPublisher(cfg, s, w, a), m);
    }
  }

  lemma SurplusStep(cfg: Config, s: System, a: Action, m: string)
    requires CopiesInv(cfg, s) && ValidConfig(cfg) && Enabled(cfg, s, a)
    requires CopiesInv(cfg, Apply(cfg, s, a))
    ensures Surplus(cfg, Apply(cfg, s, a), m) == Surplus(cfg, s, m) + if RedrivesFor(cfg, s, a, m) then 1 else 0
  {
    match a {
      case Stream(b) => StreamSurplus(cfg, s, b, m);
      case Publisher(w, b) => PublisherSurplus(cfg, s, w, b, m);
      case Store(b) =>
        StoreSendsNothing(cfg, s, b);
        NothingSentKeepsSurplus(cfg, s, ApplyStore(cfg, s, b), m);
    }
  }

  lemma {:induction false} SurplusRun(cfg: Config, s: System, actions: seq<Action>, t: System, m: string)
    requires CopiesInv(cfg, s) && ValidConfig(cfg) && Reaches(cfg, s, actions, t)
    ensures CopiesInv(cfg, t) && Surplus(cfg, t, m) == Surplus(cfg, s, m) + Redriven(cfg, s, actions, m)
    decreases |actions|
  {
    if actions != [] {
      CopiesStep(cfg, s, actions[0]);
      SurplusStep(cfg, s, actions[0], m);
      SurplusRun(cfg, Apply(cfg, s, actions[0]), actions[1..], t, m);
    }
  }

  lemma {:induction false} SentForIsCopies(claims: seq<RowId>, sends: seq<nat>, announced: map<RowId, string>,
                                           id: RowId)
    requires forall n :: 0 <= n < |sends| ==> sends[n] < |claims|
    requires Injective(announced) && id in announced
    ensures SentFor(claims, sends, announced, announced[id]) == D.Copies(claims, sends, id)
    decreases |sends|
  {
    if sends != [] { SentForIsCopies(claims, sends[..|sends| - 1], announced, id); }
  }

  lemma {:induction false} NothingOccurs(t: Topic, wanted: Record -> bool)
    requires forall p :: 0 <= p < |t| ==> t[p].log == []
    ensures Occurring(t, wanted) == 0
    decreases |t|
  {
    if t != [] { NothingOccurs(t[..|t| - 1], wanted); }
  }

  /** On every run, the records in the main topic for the message of row `id` are exactly the copies that
      publishers have sent and those that were redriven from the dead-letter topic. */
  lemma LoggedCopiesExact(cfg: Config, s: System, actions: seq<Action>, t: System, id: RowId)
    requires ValidConfig(cfg) && Init(s) && Reaches(cfg, s, actions, t) && id in t.history.announced
    ensures id in t.rows ==> t.history.announced[id] == t.rows[id].event.payload.id
    ensures forall n :: 0 <= n < |t.history.sends| ==> t.history.sends[n] < |t.history.claims|
    ensures Occurring(t.streams.main, For(cfg.codec, t.history.announced[id]))
         == D.Copies(t.history.claims, t.history.sends, id) + Redriven(cfg, s, actions, t.history.announced[id])
  {
    InvInit(cfg, s);
    SurplusRun(cfg, s, actions, t, t.history.announced[id]);
    NothingOccurs(s.streams.main, For(cfg.codec, t.history.announced[id]));
    SentForIsCopies(t.history.claims, t.history.sends, t.history.announced, id);
  }

  /** So, apart from what is redriven, a message is in the main topic at most once for each claim of its
      row. */
  lemma LoggedCopiesBounded(cfg: Config, s: System, actions: seq<Action>, t: System, id: RowId)
    requires ValidConfig(cfg) && Init(s) && Reaches(cfg, s, actions, t) && id in t.history.announced
    ensures Occurring(t.streams.main, For(cfg.codec, t.history.announced[id]))
         <= |D.ClaimsOf(t.history.claims, id)| + Redriven(cfg, s, actions, t.history.announced[id])
  {
    LoggedCopiesExact(cfg, s, actions, t, id);
    D.CopiesBounded(cfg, s, actions, t, id);
  }

  /** And if no operator has redriven its row, at most as often as the maximum of attempts, and once more for
      each time an expired lock on the row was taken over. */
  lemma LoggedCopiesWithoutRedrive(cfg: Config, s: System, actions: seq<Action>, t: System, id: RowId)
    requires ValidConfig(cfg) && Init(s) && Reaches(cfg, s, actions, t)
    requires D.NeverRedriven(actions, id) && id in t.history.announced && id in t.history.tallies
    ensures Occurring(t.streams.main, For(cfg.codec, t.history.announced[id]))
         <= cfg.maxAttempts + t.history.tallies[id].takeovers + Redriven(cfg, s, actions, t.history.announced[id])
  {
    LoggedCopiesExact(cfg, s, actions, t, id);
    D.CopiesWithoutRedrive(cfg, s, actions, t, id);
  }
}
