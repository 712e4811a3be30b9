/** The operator's redrive of failed outbox rows: select the oldest, then reset them. The read and
    the write are separate steps, and anything may happen between them. */
module OutboxMaintenance {
  import opened Wrappers
  import opened Codecs
  import opened Ordering
  import opened OutboxRows
  import opened OutboxRepository

  /** A limit is positive: the command refuses any other. */
  datatype RedriveInput = RedriveInput(
    dryRun: bool, eventIds: seq<string>, ids: seq<string>, limit: Option<nat>, now: int)

  /** No selector at all selects every failed row. */
  datatype Selection = Selection(ids: seq<RowId>, eventIds: seq<string>)

  datatype RedriveResult = RedriveResult(selected: seq<RowId>, modifiedCount: nat)

  function SelectedIds(t: Table, f: Selection): set<RowId> {
    set id | id in t && t[id].status == Failed
      && ((f.ids == [] && f.eventIds == []) || id in f.ids || t[id].event.eventId in f.eventIds)
  }

  function OldestFirst(t: Table): Ranking {
    id => if id in t then Rank(t[id].nextAttemptAt, id) else Rank(0, id)
  }

  /** The rows a redrive selects: failed ones, longest failed first, at most `limit`. */
  function Selected(t: Table, f: Selection, limit: Option<nat>): seq<RowId> {
    var all := Arrange(SelectedIds(t, f), OldestFirst(t));
    if limit.Some? then Take(all, limit.value) else all
  }

  function Members(s: seq<RowId>): set<RowId> {
    set id | id in s
  }

  /** Row `a` is before row `b`: its failure is older, or as old and its id is less. */
  predicate IsOlder(t: Table, a: RowId, b: RowId)
    requires a in t && b in t
  {
    t[a].nextAttemptAt < t[b].nextAttemptAt || (t[a].nextAttemptAt == t[b].nextAttemptAt && a < b)
  }

  /** List `s` has failed rows that are asked for: any failed row if nothing is named, else those with a named
      id or a named event id. They are in order, oldest first; at most `limit`; and a row that is asked for is
      left out only if the limit is reached by older ones. */
  ghost predicate IsSelection(t: Table, f: Selection, limit: Option<nat>, s: seq<RowId>) {
    && (forall id :: id in s ==>
          && id in t && t[id].status == Failed
          && ((f.ids == [] && f.eventIds == []) || id in f.ids || t[id].event.eventId in f.eventIds))
    && (forall i, j :: 0 <= i < j < |s| ==> IsOlder(t, s[i], s[j]))
    && (limit.Some? ==> |s| <= limit.value)
    && (forall x :: x in t && t[x].status == Failed && x !in s ==>
          || !((f.ids == [] && f.eventIds == []) || x in f.ids || t[x].event.eventId in f.eventIds)
          || (limit.Some? && |s| == limit.value && forall id :: id in s ==> IsOlder(t, id, x)))
  }

  lemma RanksMeanOlder(t: Table, f: Selection, limit: Option<nat>, s: seq<RowId>)
    requires Ascending(s, OldestFirst(t)) && (limit.Some? ==> |s| <= limit.value)
    requires forall id :: id in s ==> id in SelectedIds(t, f)
    requires forall x :: x in SelectedIds(t, f) && x !in s ==> limit.Some? && |s| == limit.value
    requires forall id, x :: id in s && x in SelectedIds(t, f) && x !in s ==>
      Before(OldestFirst(t)(id), OldestFirst(t)(x))
    ensures IsSelection(t, f, limit, s)
  {
    forall i, j | 0 <= i < j < |s| ensures s[i] in t && s[j] in t && IsOlder(t, s[i], s[j]) {
      assert s[i] in s && s[j] in s;
    }
  }

  lemma SelectedMeans(t: Table, f: Selection, limit: Option<nat>)
    ensures IsSelection(t, f, limit, Selected(t, f, limit))
  {
    var ids := SelectedIds(t, f);
    ArrangeSorts(ids, OldestFirst(t));
    if limit.Some? { TakeMeans(ids, OldestFirst(t), limit.value); }
    RanksMeanOlder(t, f, limit, Selected(t, f, limit));
  }

  /** Resetting rows `ids` makes each that has failed, and still is failed when the write finds it, a
      pending row with no attempts, due at `now`; and it leaves every other row as it was. */
  lemma RedrivenMeans(t: Table, ids: set<RowId>, now: int)
    ensures var u := Redriven(t, ids, now);
      && u.Keys == t.Keys
      && (forall id :: id in t && !(id in ids && t[id].status == Failed) ==> u[id] == t[id])
      && (forall id :: id in t && id in ids && t[id].status == Failed ==>
            u[id] == Row(t[id].event, t[id].key, Pending, 0, now, None, None, None, t[id].createdAt, None))
  {
  }

  lemma {:induction false} OlderSize(t: Table, s: seq<RowId>)
    requires forall id :: id in s ==> id in t
    requires forall i, j :: 0 <= i < j < |s| ==> IsOlder(t, s[i], s[j])
    ensures |Members(s)| == |s|
  {
    if s != [] {
      OlderSize(t, s[1..]);
      assert s[0] !in s[1..];
      assert Members(s) == {s[0]} + Members(s[1..]);
    }
  }

  /** Selected ids are distinct and failed, so each of them is one modified row. */
  lemma SelectedCount(t: Table, f: Selection, limit: Option<nat>)
    ensures var s := Selected(t, f, limit);
      |Members(s)| == |s| && forall id :: id in s ==> id in t && t[id].status == Failed
  {
    SelectedMeans(t, f, limit);
    OlderSize(t, Selected(t, f, limit));
  }

  class OutboxMaintenanceService {
    const codec: Codec
    const outbox: MongoOutboxRepository

    constructor (codec: Codec, outbox: MongoOutboxRepository)
      ensures this.codec == codec && this.outbox == outbox
    {
      this.codec := codec;
      this.outbox := outbox;
    }

    /** The selectors as the query uses them; an id that is not one is an error. */
    method BuildFailedSelection(input: RedriveInput) returns (r: Result<Selection, string>)
      ensures r.Failure? <==> exists k :: 0 <= k < |input.ids| && codec.acceptId(input.ids[k]).None?
      ensures r.Success? ==> r.value.eventIds == input.eventIds && |r.value.ids| == |input.ids|
      ensures r.Success? ==> forall k :: 0 <= k < |input.ids| ==> codec.acceptId(input.ids[k]) == Some(r.value.ids[k])
    {
      var ids: seq<RowId> := [];
      for k := 0 to |input.ids|
        invariant |ids| == k
        invariant forall j :: 0 <= j < k ==> codec.acceptId(input.ids[j]) == Some(ids[j])
      {
        var parsed := codec.acceptId(input.ids[k]);
        if parsed.None? { return Failure("Invalid outbox _id: " + input.ids[k]); }
        ids := ids + [parsed.value];
      }
      r := Success(Selection(ids, input.eventIds));
    }

    /** Redrive. Between its read and its write anything may have happened to the table: `meanwhile` is
        what the write finds. An invalid id changes nothing; a dry run reports and changes nothing;
        otherwise those of the selected rows are reset that are failed when the write finds them. */
    method RedriveFailed(input: RedriveInput, meanwhile: Table)
      returns (r: Result<RedriveResult, string>, ghost f: Selection)
      requires input.limit != Some(0)
      modifies outbox
      ensures r.Failure? <==> exists k :: 0 <= k < |input.ids| && codec.acceptId(input.ids[k]).None?
      ensures r.Failure? ==> outbox.rows == old(outbox.rows)
      ensures r.Success? ==> f.eventIds == input.eventIds && |f.ids| == |input.ids|
      ensures r.Success? ==> forall k :: 0 <= k < |f.ids| ==> codec.acceptId(input.ids[k]) == Some(f.ids[k])
      ensures r.Success? ==> r.value.selected == Selected(old(outbox.rows), f, input.limit)
      ensures r.Success? ==> IsSelection(old(outbox.rows), f, input.limit, r.value.selected)
      ensures r.Success? && (input.dryRun || r.value.selected == []) ==>
        outbox.rows == old(outbox.rows) && r.value.modifiedCount == 0
      ensures r.Success? && !input.dryRun && r.value.selected != [] ==>
        && outbox.rows == Redriven(meanwhile, Members(r.value.selected), input.now)
        && r.value.modifiedCount
           == |set id | id in r.value.selected && id in meanwhile && meanwhile[id].status == Failed|
      ensures r.Success? && !input.dryRun && r.value.selected != [] ==>
        && outbox.rows.Keys == meanwhile.Keys
        && forall id :: id in meanwhile ==>
             var w := meanwhile[id];
             outbox.rows[id] == if id in r.value.selected && w.status == Failed
                                then Row(w.event, w.key, Pending, 0, input.now, None, None, None, w.createdAt, None)
                                else w
      ensures r.Success? && !input.dryRun && meanwhile == old(outbox.rows) ==>
        r.value.modifiedCount == |r.value.selected|
    {
      f := Selection([], []);
      var selection := BuildFailedSelection(input);
      if selection.Failure? { return Failure(selection.error), f; }
      f := selection.value;
      var selected := Selected(outbox.rows, selection.value, input.limit);
      SelectedMeans(outbox.rows, f, input.limit);
      if selected == [] || input.dryRun { return Success(RedriveResult(selected, 0)), f; }
      var ids := Members(selected);
      SelectedCount(outbox.rows, f, input.limit);
      var failed := set id | id in selected && id in meanwhile && meanwhile[id].status == Failed;
      assert meanwhile == outbox.rows ==> failed == ids;
      outbox.rows := Redriven(meanwhile, ids, input.now);
      r := Success(RedriveResult(selected, |failed|));
    }
  }
}
