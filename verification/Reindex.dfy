/** The reindex command: copy what the read alias shows into a new index, check the counts, and swap
    both aliases to it in one update. */
module Reindex {
  import opened Wrappers
  import opened IndexNames
  import opened Aliases
  import P = Protocol

  datatype ReindexInput = ReindexInput(dryRun: bool, targetIndex: Option<string>)

  datatype ReindexResult = ReindexResult(
    aliasesSwapped: bool, previousWriteIndices: seq<string>, sourceCount: nat, sourceIndices: seq<string>,
    targetCount: Option<nat>, targetIndex: string)

  datatype ReindexError =
    | NoReadAlias
    | BadTarget
    | TargetExists(index: string)
    | CopyFailures(count: nat)
    | CountMismatch(source: nat, target: nat)
    | CallFailed

  /** What the cluster's calls do in one execution: which of them report an error, and, for those that
      change something, whether that is before or after their effect; what the copy leaves in the
      target, and how many failures it reports. */
  datatype Calls = Calls(
    lookupFails: bool, create: P.Fault, copied: Docs, copyFails: bool, failures: nat, countFails: bool, swap: P.Fault)

  predicate AllSucceed(calls: Calls) {
    && !calls.lookupFails && calls.create == P.NoFault && !calls.copyFails && calls.failures == 0
    && !calls.countFails && calls.swap == P.NoFault
  }

  /** The count of the sources is `count`, and the copy is not all of their documents, or two of them
      share an id. */
  ghost predicate Mismatched(c: Cluster, copied: Docs, count: nat) {
    exists sources :: Members(sources) == c.read <= c.indices.Keys
      && count == CountDocuments(c, sources) && !IsUnion(c, sources, copied)
  }

  /** The copy puts nothing into the target that is not in a source. */
  ghost predicate ValidCalls(c: Cluster, calls: Calls) {
    forall sources :: Members(sources) == c.read ==> IsCopy(c, sources, calls.copied)
  }

  /** `d` is `c` with a new index `target` that holds exactly what the read alias showed, and with both
      aliases at it and nowhere else. */
  ghost predicate Swapped(c: Cluster, d: Cluster, sources: seq<string>, target: string) {
    && Members(sources) == c.read <= c.indices.Keys
    && target !in c.indices && target in d.indices
    && d.indices == c.indices[target := d.indices[target]]
    && d.read == {target} && d.write == {target}
    && IsUnion(c, sources, d.indices[target])
  }

  predicate AddsIndex(c: Cluster, d: Cluster, target: string) {
    target in d.indices && target !in c.indices && d.indices == c.indices[target := d.indices[target]]
  }

  /** `d` is `c` with at most one more index. */
  ghost predicate OneMoreIndex(c: Cluster, d: Cluster) {
    && d.read == c.read && d.write == c.write
    && (d.indices == c.indices || exists target :: AddsIndex(c, d, target))
  }

  /** All that one execution can do to the cluster, however it ends. */
  ghost predicate ReindexOutcome(c: Cluster, d: Cluster) {
    OneMoreIndex(c, d) || exists sources, target :: Swapped(c, d, sources, target)
  }

  // ---- The alias swap ----

  function Removals(alias: Alias, indices: seq<string>): seq<AliasAction> {
    seq(|indices|, i requires 0 <= i < |indices| => Remove(alias, indices[i]))
  }

  function SwapActions(previousRead: seq<string>, previousWrite: seq<string>, target: string): seq<AliasAction> {
    Removals(Read, previousRead) + Removals(Write, previousWrite) + [Add(Read, target), Add(Write, target)]
  }

  lemma {:induction false} RemovalsMean(c: Cluster, alias: Alias, indices: seq<string>)
    ensures UpdateAliases(c, Removals(alias, indices))
         == if alias == Read then c.(read := c.read - Members(indices)) else c.(write := c.write - Members(indices))
    decreases |indices|
  {
    if indices != [] {
      assert Removals(alias, indices)[1..] == Removals(alias, indices[1..]);
      assert Members(indices) == {indices[0]} + Members(indices[1..]);
      RemovalsMean(ApplyAction(c, Remove(alias, indices[0])), alias, indices[1..]);
    }
  }

  lemma AddBoth(c: Cluster, target: string)
    requires c.read == {} && c.write == {}
    ensures UpdateAliases(c, [Add(Read, target), Add(Write, target)]) == c.(read := {target}, write := {target})
  {
    var d := ApplyAction(c, Add(Read, target));
    assert [Add(Read, target), Add(Write, target)][1..] == [Add(Write, target)];
    assert UpdateAliases(d, [Add(Write, target)]) == ApplyAction(d, Add(Write, target));
  }

  /** The update leaves both aliases at the target only, if it removes all that they had. */
  lemma SwapMeans(c: Cluster, previousRead: seq<string>, previousWrite: seq<string>, target: string)
    requires Members(previousRead) == c.read && Members(previousWrite) == c.write
    ensures UpdateAliases(c, SwapActions(previousRead, previousWrite, target))
         == c.(read := {target}, write := {target})
  {
    var adds := [Add(Read, target), Add(Write, target)];
    var fromRead, fromWrite := Removals(Read, previousRead), Removals(Write, previousWrite);
    UpdateAppend(c, fromRead + fromWrite, adds);
    UpdateAppend(c, fromRead, fromWrite);
    RemovalsMean(c, Read, previousRead);
    RemovalsMean(UpdateAliases(c, fromRead), Write, previousWrite);
    assert UpdateAliases(UpdateAliases(c, fromRead), fromWrite) == c.(read := {}, write := {});
    AddBoth(c.(read := {}, write := {}), target);
    assert SwapActions(previousRead, previousWrite, target) == fromRead + fromWrite + adds;
  }

  lemma CountsTell(c: Cluster, sources: seq<string>, copied: Docs)
    requires Members(sources) == c.read <= c.indices.Keys && IsCopy(c, sources, copied)
    ensures |copied| == CountDocuments(c, sources) ==> IsUnion(c, sources, copied)
    ensures |copied| != CountDocuments(c, sources) ==> Mismatched(c, copied, CountDocuments(c, sources))
  {
    CountCheckExact(c, sources, copied);
  }

  /** Names are refused whatever the sources. */
  lemma RefusedAnyway(show: Printer, target: Option<string>, sources: seq<string>)
    requires NormalizeTargetIndex(show, target, sources).None?
    ensures NormalizeTargetIndex(show, target, []).None?
  {
  }

  lemma SwapCompletes(c: Cluster, copied: Docs, sources: seq<string>, previousWrite: seq<string>, target: string)
    requires ValidCluster(c) && Members(sources) == c.read && Members(previousWrite) == c.write
    requires target !in c.indices && IsUnion(c, sources, copied)
    ensures var copy := c.(indices := c.indices[target := copied]);
      var d := UpdateAliases(copy, SwapActions(sources, previousWrite, target));
      Swapped(c, d, sources, target) && ValidCluster(d)
  {
    SwapMeans(c.(indices := c.indices[target := copied]), sources, previousWrite, target);
  }

  class EsReindexService {
    const cluster: SearchCluster
    const show: Printer

    constructor (cluster: SearchCluster, show: Printer)
      ensures this.cluster == cluster && this.show == show
    {
      this.cluster := cluster;
      this.show := show;
    }

    method BuildAliasSwapActions(previousRead: seq<string>, previousWrite: seq<string>, target: string)
      returns (actions: seq<AliasAction>)
      ensures actions == SwapActions(previousRead, previousWrite, target)
    {
      actions := [];
      for k := 0 to |previousRead|
        invariant actions == Removals(Read, previousRead)[..k]
      {
        actions := actions + [Remove(Read, previousRead[k])];
      }
      for k := 0 to |previousWrite|
        invariant actions == Removals(Read, previousRead) + Removals(Write, previousWrite)[..k]
      {
        actions := actions + [Remove(Write, previousWrite[k])];
      }
      actions := actions + [Add(Read, target), Add(Write, target)];
    }

    /** The part of an execution that changes the cluster: create the target, copy, compare the counts, swap. */
    method CopyAndSwap(sources: seq<string>, writes: seq<string>, sourceCount: nat, target: string, calls: Calls)
      returns (r: Result<nat, ReindexError>)
      requires ValidCluster(cluster.state) && target !in cluster.state.indices
      requires Members(sources) == cluster.state.read && Members(writes) == cluster.state.write
      requires sourceCount == CountDocuments(cluster.state, sources) && IsCopy(cluster.state, sources, calls.copied)
      modifies cluster
      ensures ValidCluster(cluster.state)
      ensures OneMoreIndex(old(cluster.state), cluster.state)
           || Swapped(old(cluster.state), cluster.state, sources, target)
      ensures r.Failure? && calls.swap != P.ErrorAfter ==> OneMoreIndex(old(cluster.state), cluster.state)
      ensures r.Success? ==> r.value == sourceCount && AllSucceed(calls.(lookupFails := false))
      ensures r.Success? ==> Swapped(old(cluster.state), cluster.state, sources, target)
      ensures r.Failure? ==> r.error.CallFailed? || r.error.CopyFailures? || r.error.CountMismatch?
      ensures r.Failure? && AllSucceed(calls) ==> !r.error.CallFailed?
      ensures r.Failure? && r.error.CopyFailures? ==> r.error.count == calls.failures > 0
      ensures r.Failure? && r.error.CountMismatch? ==>
        r.error.target == |calls.copied| && Mismatched(old(cluster.state), calls.copied, r.error.source)
    {
      ghost var before := cluster.state;
      if calls.create != P.ErrorBefore {
        cluster.state := cluster.state.(indices := cluster.state.indices[target := map[]]);
        assert AddsIndex(before, cluster.state, target);
      }
      if calls.create != P.NoFault { return Failure(CallFailed); }
      cluster.state := cluster.state.(indices := cluster.state.indices[target := calls.copied]);
      assert AddsIndex(before, cluster.state, target);
      if calls.copyFails { return Failure(CallFailed); }
      if calls.failures > 0 { return Failure(CopyFailures(calls.failures)); }
      if calls.countFails { return Failure(CallFailed); }
      CountsTell(before, sources, calls.copied);
      var targetCount := |cluster.state.indices[target]|;
      if targetCount != sourceCount { return Failure(CountMismatch(sourceCount, targetCount)); }

      var actions := BuildAliasSwapActions(sources, writes, target);
      SwapCompletes(before, calls.copied, sources, writes, target);
      if calls.swap != P.ErrorBefore { cluster.state := UpdateAliases(cluster.state, actions); }
      if calls.swap != P.NoFault { return Failure(CallFailed); }
      r := Success(targetCount);
    }

    /** One execution without interference. The aliases change only together, and only to a new index
        that holds exactly the sources' documents; no index that was there changes; a dry run changes
        nothing. */
    method Reindex(input: ReindexInput, calls: Calls) returns (r: Result<ReindexResult, ReindexError>)
      requires ValidCluster(cluster.state) && ValidCalls(cluster.state, calls)
      modifies cluster
      ensures ValidCluster(cluster.state)
      ensures ReindexOutcome(old(cluster.state), cluster.state)
      ensures r.Success? ==>
        && Members(r.value.sourceIndices) == old(cluster.state).read != {}
        && Members(r.value.previousWriteIndices) == old(cluster.state).write
        && r.value.sourceCount == CountDocuments(old(cluster.state), r.value.sourceIndices)
        && NormalizeTargetIndex(show, input.targetIndex, r.value.sourceIndices) == Some(r.value.targetIndex)
        && r.value.aliasesSwapped == !input.dryRun
      ensures r.Success? && !input.dryRun ==>
        Swapped(old(cluster.state), cluster.state, r.value.sourceIndices, r.value.targetIndex)
      ensures r.Success? && !input.dryRun ==> r.value.targetCount == Some(r.value.sourceCount)
      ensures input.dryRun ==> cluster.state == old(cluster.state)
      ensures r.Failure? && calls.swap != P.ErrorAfter ==> OneMoreIndex(old(cluster.state), cluster.state)
      ensures r.Failure? && r.error.NoReadAlias? <==> !calls.lookupFails && old(cluster.state).read == {}
      ensures r.Failure? && r.error.TargetExists? ==>
        !input.dryRun && r.error.index in old(cluster.state).indices && cluster.state == old(cluster.state)
      ensures r.Failure? && r.error.BadTarget? ==>
        NormalizeTargetIndex(show, input.targetIndex, []).None? && cluster.state == old(cluster.state)
      ensures r.Failure? && r.error.CopyFailures? ==> r.error.count == calls.failures > 0
      ensures r.Failure? && r.error.CountMismatch? ==>
        r.error.target == |calls.copied| && Mismatched(old(cluster.state), calls.copied, r.error.source)
      ensures r.Success? && !input.dryRun ==> AllSucceed(calls)
      ensures r.Failure? && !calls.lookupFails && (input.dryRun || AllSucceed(calls)) ==> !r.error.CallFailed?
      ensures r.Failure? && input.dryRun ==> !(r.error.TargetExists? || r.error.CopyFailures? || r.error.CountMismatch?)
    {
      if calls.lookupFails { return Failure(CallFailed); }
      var sources := ListIndices(cluster.state.read);
      var writes := ListIndices(cluster.state.write);
      if |sources| == 0 { return Failure(NoReadAlias); }
      var normalized := NormalizeTargetIndex(show, input.targetIndex, sources);
      if normalized.None? {
        RefusedAnyway(show, input.targetIndex, sources);
        return Failure(BadTarget);
      }
      var target := normalized.value;
      var sourceCount := CountDocuments(cluster.state, sources);
      var targetExists := target in cluster.state.indices;
      if input.dryRun {
        return Success(ReindexResult(false, writes, sourceCount, sources, None, target));
      }
      if targetExists { return Failure(TargetExists(target)); }
      var targetCount := CopyAndSwap(sources, writes, sourceCount, target, calls);
      if targetCount.Failure? { return Failure(targetCount.error); }
      r := Success(ReindexResult(true, writes, sourceCount, sources, Some(targetCount.value), target));
    }
  }
}
