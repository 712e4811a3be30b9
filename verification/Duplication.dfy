/** How often an event can be sent: on every run, the publishers append an event to the main topic
    at most once for each claim of its row. */
module Duplication {
  import opened OutboxRows
  import opened Protocol
  import Accounts

  /** Worker `k` has not yet tried to send entry `i`. */
  predicate Unsent(k: Worker, i: int) {
    0 <= i < |k.batch| && (k.Claiming? || i > k.next || (i == k.next && k.stage == Sending))
  }

  /** Every entry records a claim of its own row. */
  ghost predicate ClaimsInv(claims: seq<RowId>, workers: map<InstanceId, Worker>) {
    forall w, i :: w in workers && 0 <= i < |workers[w].batch| ==>
      workers[w].batch[i].claim < |claims| && claims[workers[w].batch[i].claim] == workers[w].batch[i].id
  }

  /** No two entries, of any publishers, come from one claim. */
  ghost predicate UniqueInv(workers: map<InstanceId, Worker>) {
    forall v, i, w, j ::
      (v in workers && 0 <= i < |workers[v].batch| && w in workers && 0 <= j < |workers[w].batch|
       && workers[v].batch[i].claim == workers[w].batch[j].claim) ==> v == w && i == j
  }

  ghost predicate SendsInv(claims: seq<RowId>, sends: seq<nat>, workers: map<InstanceId, Worker>) {
    && (forall n :: 0 <= n < |sends| ==> sends[n] < |claims|)
    && (forall m, n :: 0 <= m < n < |sends| ==> sends[m] != sends[n])
    && (forall w, i :: w in workers && Unsent(workers[w], i) ==> workers[w].batch[i].claim !in sends)
  }

  ghost predicate OnceInv(s: System) {
    && ClaimsInv(s.history.claims, s.workers) && UniqueInv(s.workers)
    && SendsInv(s.history.claims, s.history.sends, s.workers)
  }

  /** Entry `i` of `v`'s batch after a step was there before it, or is the row just claimed. */
  lemma EntryBefore(cfg: Config, s: System, w: InstanceId, a: PublisherAction, v: InstanceId, i: int)
    requires PublisherEnabled(cfg, s, w, a)
    requires v in ApplyPublisher(cfg, s, w, a).workers && 0 <= i < |ApplyPublisher(cfg, s, w, a).workers[v].batch|
    ensures var k := ApplyPublisher(cfg, s, w, a).workers[v];
      || (v in s.workers && i < |s.workers[v].batch| && k.batch[i] == s.workers[v].batch[i]
          && (Unsent(k, i) ==> Unsent(s.workers[v], i)))
      || (v == w && a.ClaimRow? && i == |s.workers[w].batch|
          && k.batch[i].claim == |s.history.claims| && k.batch[i].id == a.id)
  {
  }

  lemma PublisherKeepsClaims(cfg: Config, s: System, w: InstanceId, a: PublisherAction)
    requires ClaimsInv(s.history.claims, s.workers) && UniqueInv(s.workers) && PublisherEnabled(cfg, s, w, a)
    ensures var t := ApplyPublisher(cfg, s, w, a); ClaimsInv(t.history.claims, t.workers) && UniqueInv(t.workers)
  {
    var t := ApplyPublisher(cfg, s, w, a);
    assert a.ClaimRow? ==> t.history.claims == s.history.claims + [a.id];
    assert !a.ClaimRow? ==> t.history.claims == s.history.claims;
    forall v, i | v in t.workers && 0 <= i < |t.workers[v].batch|
      ensures t.workers[v].batch[i].claim < |t.history.claims|
      ensures t.history.claims[t.workers[v].batch[i].claim] == t.workers[v].batch[i].id
    {
      EntryBefore(cfg, s, w, a, v, i);
    }
    forall v, i, u, j | v in t.workers && 0 <= i < |t.workers[v].batch|
                        && u in t.workers && 0 <= j < |t.workers[u].batch|
                        && t.workers[v].batch[i].claim == t.workers[u].batch[j].claim
      ensures v == u && i == j
    {
      EntryBefore(cfg, s, w, a, v, i);
      EntryBefore(cfg, s, w, a, u, j);
    }
  }

  lemma PublisherKeepsSends(cfg: Config, s: System, w: InstanceId, a: PublisherAction)
    requires OnceInv(s) && PublisherEnabled(cfg, s, w, a)
    ensures var t := ApplyPublisher(cfg, s, w, a); SendsInv(t.history.claims, t.history.sends, t.workers)
  {
    var t := ApplyPublisher(cfg, s, w, a);
    forall v, i | v in t.workers && Unsent(t.workers[v], i) ensures t.workers[v].batch[i].claim !in t.history.sends {
      EntryBefore(cfg, s, w, a, v, i);
    }
  }

  lemma StoreKeepsHistory(cfg: Config, s: System, a: StoreAction)
    requires StoreEnabled(s, a)
    ensures var t := ApplyStore(cfg, s, a);
      t.history.claims == s.history.claims && t.history.sends == s.history.sends && t.workers == s.workers
  {
  }

  lemma OnceStep(cfg: Config, s: System, a: Action)
    requires OnceInv(s) && Enabled(cfg, s, a)
    ensures OnceInv(Apply(cfg, s, a))
  {
    match a {
      case Store(b) => StoreKeepsHistory(cfg, s, b);
      case Publisher(w, b) =>
        PublisherKeepsClaims(cfg, s, w, b);
        PublisherKeepsSends(cfg, s, w, b);
      case Stream(_) =>
    }
  }

  lemma {:induction false} OnceRun(cfg: Config, s: System, actions: seq<Action>, t: System)
    requires OnceInv(s) && Reaches(cfg, s, actions, t)
    ensures OnceInv(t)
    decreases |actions|
  {
    if actions != [] {
      OnceStep(cfg, s, actions[0]);
      OnceRun(cfg, Apply(cfg, s, actions[0]), actions[1..], t);
    }
  }

  function ClaimsOf(claims: seq<RowId>, id: RowId): set<nat> {
    set n: nat | n < |claims| && claims[n] == id
  }

  /** How many copies of row `id`'s event the publishers have appended. */
  function Copies(claims: seq<RowId>, sends: seq<nat>, id: RowId): nat
    requires forall n :: 0 <= n < |sends| ==> sends[n] < |claims|
  {
    if sends == [] then 0 else
    var n := |sends| - 1;
    Copies(claims, sends[..n], id) + if claims[sends[n]] == id then 1 else 0
  }

  /** Copies are sent for pairwise distinct claims of the row: `sent` is the set of them. */
  lemma {:induction false} CopiesAreClaims(claims: seq<RowId>, sends: seq<nat>, id: RowId)
    returns (sent: set<nat>)
    requires forall n :: 0 <= n < |sends| ==> sends[n] < |claims|
    requires forall m, n :: 0 <= m < n < |sends| ==> sends[m] != sends[n]
    ensures |sent| == Copies(claims, sends, id) && sent <= ClaimsOf(claims, id)
    ensures forall x :: x in sent ==> x in sends
  {
    sent := {};
    if sends != [] {
      var n := |sends| - 1;
      sent := CopiesAreClaims(claims, sends[..n], id);
      assert sends[n] !in sends[..n];
      if claims[sends[n]] == id { sent := sent + {sends[n]}; }
    }
  }

  lemma SubsetSize(a: set<nat>, b: set<nat>)
    requires a <= b
    ensures |a| <= |b|
  {
    assert |b - a| + |a| == |b - a + a| && b - a + a == b;
  }

  /** On every run, the copies of an event appended by publishers never exceed the claims of its
      row, whatever crashes, stolen leases and lost acknowledgements occurred. */
  lemma CopiesBounded(cfg: Config, s: System, actions: seq<Action>, t: System, id: RowId)
    requires Init(s) && Reaches(cfg, s, actions, t)
    ensures forall n :: 0 <= n < |t.history.sends| ==> t.history.sends[n] < |t.history.claims|
    ensures Copies(t.history.claims, t.history.sends, id) <= |ClaimsOf(t.history.claims, id)|
  {
    OnceRun(cfg, s, actions, t);
    var sent := CopiesAreClaims(t.history.claims, t.history.sends, id);
    SubsetSize(sent, ClaimsOf(t.history.claims, id));
  }

  // ---- Rows that no operator redrives ----

  predicate Redrives(a: Action, id: RowId) {
    a.Store? && a.store.RedriveRows? && id in a.store.ids
  }

  ghost predicate NeverRedriven(actions: seq<Action>, id: RowId) {
    forall k :: 0 <= k < |actions| ==> !Redrives(actions[k], id)
  }

  /** Row `id` was claimed as often as its tally says, or has not been created. */
  ghost predicate Counted(s: System, id: RowId) {
    && (id in s.rows ==> id in s.history.tallies) && (id in s.history.tallies ==> id in s.issuedIds)
    && |ClaimsOf(s.history.claims, id)| == if id in s.history.tallies then s.history.tallies[id].claims else 0
  }

  lemma OneMoreClaim(claims: seq<RowId>, x: RowId, id: RowId)
    ensures |ClaimsOf(claims + [x], id)| == |ClaimsOf(claims, id)| + if x == id then 1 else 0
  {
    assert ClaimsOf(claims + [x], id) == ClaimsOf(claims, id) + if x == id then {|claims|} else {};
  }

  lemma StoreKeepsCounted(cfg: Config, s: System, a: StoreAction, id: RowId)
    requires Counted(s, id) && StoreEnabled(s, a) && !Redrives(Store(a), id)
    ensures Counted(ApplyStore(cfg, s, a), id)
  {
  }

  lemma PublisherKeepsCounted(cfg: Config, s: System, w: InstanceId, a: PublisherAction, id: RowId)
    requires Counted(s, id) && PublisherEnabled(cfg, s, w, a)
    ensures Counted(ApplyPublisher(cfg, s, w, a), id)
  {
    if a.ClaimRow? { OneMoreClaim(s.history.claims, a.id, id); }
  }

  lemma CountedStep(cfg: Config, s: System, a: Action, id: RowId)
    requires Counted(s, id) && Enabled(cfg, s, a) && !Redrives(a, id)
    ensures Counted(Apply(cfg, s, a), id)
  {
    match a {
      case Store(b) => StoreKeepsCounted(cfg, s, b, id);
      case Publisher(w, b) => PublisherKeepsCounted(cfg, s, w, b, id);
      case Stream(_) =>
    }
  }

  lemma {:induction false} CountedRun(cfg: Config, s: System, actions: seq<Action>, t: System, id: RowId)
    requires Counted(s, id) && Reaches(cfg, s, actions, t) && NeverRedriven(actions, id)
    ensures Counted(t, id)
    decreases |actions|
  {
    if actions != [] {
      assert !Redrives(actions[0], id);
      assert forall k :: 0 <= k < |actions| - 1 ==> actions[1..][k] == actions[k + 1];
      CountedStep(cfg, s, actions[0], id);
      CountedRun(cfg, Apply(cfg, s, actions[0]), actions[1..], t, id);
    }
  }

  /** On every run, the publishers append the event of a row that no operator has redriven at most as often
      as the maximum of attempts, and once more for each time an expired lock on it was taken over. */
  lemma CopiesWithoutRedrive(cfg: Config, s: System, actions: seq<Action>, t: System, id: RowId)
    requires ValidConfig(cfg) && Init(s) && Reaches(cfg, s, actions, t)
    requires NeverRedriven(actions, id) && id in t.history.tallies
    ensures forall n :: 0 <= n < |t.history.sends| ==> t.history.sends[n] < |t.history.claims|
    ensures Copies(t.history.claims, t.history.sends, id) <= cfg.maxAttempts + t.history.tallies[id].takeovers
  {
    assert ClaimsOf(s.history.claims, id) == {};
    CopiesBounded(cfg, s, actions, t, id);
    CountedRun(cfg, s, actions, t, id);
    Accounts.ClaimsBounded(cfg, s, actions, t, id);
  }
}
