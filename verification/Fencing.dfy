/** What the lock-owner filter guarantees. A publisher decides on the snapshot it took when it
    claimed a row; its later update matches only if it still holds the lock. */
module Fencing {
  import opened OutboxRows
  import opened Protocol
  import opened Delivery

  /** Entry `i` is the batch's last claim of its row. */
  predicate IsLatest(batch: seq<Entry>, i: int) {
    0 <= i < |batch| && forall j :: i < j < |batch| ==> batch[j].id != batch[i].id
  }

  /** While a publisher holds a row's lock, its latest snapshot has the row's attempts. */
  ghost predicate FenceInv(rows: Table, workers: map<InstanceId, Worker>) {
    forall w, i :: w in workers && IsLatest(workers[w].batch, i) && Owns(rows, workers[w].batch[i].id, w) ==>
      rows[workers[w].batch[i].id].attempts == workers[w].batch[i].attempts
  }

  lemma StoreKeepsFence(cfg: Config, s: System, a: StoreAction)
    requires FenceInv(s.rows, s.workers) && StoreEnabled(s, a)
    requires EntriesInv(cfg, s.messages, s.issuedIds, s.rows, s.workers)
    ensures FenceInv(ApplyStore(cfg, s, a).rows, s.workers)
  {
    var rows := ApplyStore(cfg, s, a).rows;
    forall w, i | w in s.workers && IsLatest(s.workers[w].batch, i) && Owns(rows, s.workers[w].batch[i].id, w)
      ensures rows[s.workers[w].batch[i].id].attempts == s.workers[w].batch[i].attempts
    {
      assert EntryOk(cfg, s.messages, s.issuedIds, s.rows, s.workers[w].batch[i]);
      assert Owns(s.rows, s.workers[w].batch[i].id, w);
    }
  }

  /** Any lock held after a publisher's step was held before it, on the same attempts, unless the
      step was the claim that took it. */
  lemma OwnedBefore(cfg: Config, s: System, w: InstanceId, a: PublisherAction, v: InstanceId, id: RowId)
    requires PublisherEnabled(cfg, s, w, a) && Owns(ApplyPublisher(cfg, s, w, a).rows, id, v)
    requires !(a.ClaimRow? && a.id == id)
    ensures Owns(s.rows, id, v) && s.rows[id].attempts == ApplyPublisher(cfg, s, w, a).rows[id].attempts
  {
  }

  lemma PublisherKeepsFence(cfg: Config, s: System, w: InstanceId, a: PublisherAction)
    requires FenceInv(s.rows, s.workers) && PublisherEnabled(cfg, s, w, a)
    ensures FenceInv(ApplyPublisher(cfg, s, w, a).rows, ApplyPublisher(cfg, s, w, a).workers)
  {
    var t := ApplyPublisher(cfg, s, w, a);
    forall v, i | v in t.workers && IsLatest(t.workers[v].batch, i) && Owns(t.rows, t.workers[v].batch[i].id, v)
      ensures t.rows[t.workers[v].batch[i].id].attempts == t.workers[v].batch[i].attempts
    {
      var id := t.workers[v].batch[i].id;
      if !(a.ClaimRow? && a.id == id) {
        OwnedBefore(cfg, s, w, a, v, id);
        BatchesGrow(cfg, s, w, a);
        assert IsLatest(s.workers[v].batch, i);
      } else {
        assert t.workers[w].batch[|s.workers[w].batch|].id == id;
        assert i == |s.workers[w].batch|;
      }
    }
  }

  ghost predicate FencedInv(cfg: Config, s: System) {
    Inv(cfg, s) && FenceInv(s.rows, s.workers)
  }

  lemma FencedStep(cfg: Config, s: System, a: Action)
    requires FencedInv(cfg, s) && ValidConfig(cfg) && Enabled(cfg, s, a)
    ensures FencedInv(cfg, Apply(cfg, s, a))
  {
    InvStep(cfg, s, a);
    match a {
      case Store(b) => StoreKeepsFence(cfg, s, b);
      case Publisher(w, b) => PublisherKeepsFence(cfg, s, w, b);
      case Stream(_) =>
    }
  }

  lemma {:induction false} FencedRun(cfg: Config, s: System, actions: seq<Action>, t: System)
    requires FencedInv(cfg, s) && ValidConfig(cfg) && Reaches(cfg, s, actions, t)
    ensures FencedInv(cfg, t)
    decreases |actions|
  {
    if actions != [] {
      FencedStep(cfg, s, actions[0]);
      FencedRun(cfg, Apply(cfg, s, actions[0]), actions[1..], t);
    }
  }

  /** The attempts of the last snapshot of row `id` in `batch`. */
  function LatestAttempts(batch: seq<Entry>, id: RowId): nat
    requires exists i :: 0 <= i < |batch| && batch[i].id == id
  {
    var n := |batch| - 1;
    if batch[n].id == id then batch[n].attempts else LatestAttempts(batch[..n], id)
  }

  lemma {:induction false} LatestExists(batch: seq<Entry>, id: RowId) returns (i: nat)
    requires exists i :: 0 <= i < |batch| && batch[i].id == id
    ensures IsLatest(batch, i) && batch[i].id == id && batch[i].attempts == LatestAttempts(batch, id)
  {
    var n := |batch| - 1;
    if batch[n].id == id {
      i := n;
    } else {
      i := LatestExists(batch[..n], id);
      assert batch[i] == batch[..n][i];
      forall j | i < j < |batch| ensures batch[j].id != id {
        if j < n { assert batch[j] == batch[..n][j]; }
      }
    }
  }

  /** Exactly when a matching update works on the truth: the entry in hand, whose row this
      publisher owns, has the row's attempts if and only if the batch's last snapshot of that row
      has the same attempts. A publisher can read that off its own batch. */
  lemma MatchedUpdateExact(cfg: Config, s: System, actions: seq<Action>, t: System, w: InstanceId, stage: Stage)
    requires ValidConfig(cfg) && Init(s) && Reaches(cfg, s, actions, t)
    requires IsAt(t, w, stage) && Owns(t.rows, Current(t.workers[w]).id, w)
    ensures var e := Current(t.workers[w]);
      t.rows[e.id].attempts == e.attempts <==> LatestAttempts(t.workers[w].batch, e.id) == e.attempts
  {
    InvInit(cfg, s);
    FencedRun(cfg, s, actions, t);
    var batch := t.workers[w].batch;
    var e := Current(t.workers[w]);
    assert batch[t.workers[w].next].id == e.id;
    var i := LatestExists(batch, e.id);
  }

  /** A publisher gets the lock of a row back only by claiming it again. */
  lemma {:induction false} LostLeaseStaysLost(cfg: Config, s: System, actions: seq<Action>, t: System,
                                              w: InstanceId, id: RowId)
    requires Reaches(cfg, s, actions, t) && !Owns(s.rows, id, w)
    requires Publisher(w, ClaimRow(id)) !in actions
    ensures !Owns(t.rows, id, w)
    decreases |actions|
  {
    if actions != [] {
      var next := Apply(cfg, s, actions[0]);
      if Owns(next.rows, id, w) && actions[0].Publisher? {
        OwnedBefore(cfg, s, actions[0].w, actions[0].publisher, w, id);
      }
      LostLeaseStaysLost(cfg, next, actions[1..], t, w, id);
    }
  }

  /** A publisher whose lease on a row was taken over, or has otherwise ended, changes that row no more:
      whatever happens meanwhile, until it claims the row again none of its steps touches it. */
  lemma LostLeaseIsHarmless(cfg: Config, s: System, actions: seq<Action>, t: System, w: InstanceId, id: RowId,
                            a: PublisherAction)
    requires Reaches(cfg, s, actions, t) && !Owns(s.rows, id, w)
    requires Publisher(w, ClaimRow(id)) !in actions
    requires PublisherEnabled(cfg, t, w, a) && a != ClaimRow(id)
    ensures var rows := ApplyPublisher(cfg, t, w, a).rows;
      (id in rows <==> id in t.rows) && (id in rows ==> rows[id] == t.rows[id])
  {
    LostLeaseStaysLost(cfg, s, actions, t, w, id);
  }
}
