/** Any number of bootstraps and reindexes, one after another, however each ends. */
module AliasRuns {
  import opened Aliases
  import opened Reindex
  import opened IndexBootstrap

  /** Documents come and go; indices and aliases stay. */
  predicate Writes(c: Cluster, d: Cluster) {
    d.indices.Keys == c.indices.Keys && d.read == c.read && d.write == c.write
  }

  /** What one execution can do to the cluster; documents may be indexed in between. */
  ghost predicate Follows(c: Cluster, d: Cluster) {
    BootstrapOutcome(c, d) || ReindexOutcome(c, d) || Writes(c, d)
  }

  ghost predicate StepAt(run: seq<Cluster>, k: nat)
    requires 0 < k < |run|
  {
    Follows(run[k - 1], run[k])
  }

  ghost predicate IsRun(run: seq<Cluster>) {
    forall k :: 0 < k < |run| ==> StepAt(run, k)
  }

  /** Both aliases point nowhere, or both at the same one index, which exists. */
  predicate Agree(c: Cluster) {
    c.read == c.write <= c.indices.Keys && |c.read| <= 1
  }

  /** An alias that pointed somewhere was moved. */
  predicate Moves(c: Cluster, d: Cluster) {
    (c.read != {} && d.read != c.read) || (c.write != {} && d.write != c.write)
  }

  /** A reindex was completed: the aliases are at a new index that holds exactly the documents they
      showed before. */
  ghost predicate CompletesReindex(c: Cluster, d: Cluster) {
    exists sources, target :: Swapped(c, d, sources, target)
  }

  lemma StepKeepsAgreement(c: Cluster, d: Cluster)
    requires Agree(c) && Follows(c, d)
    ensures Agree(d) && (c.read != {} ==> d.read != {})
    ensures Moves(c, d) ==> CompletesReindex(c, d)
  {
    if ReindexOutcome(c, d) && !OneMoreIndex(c, d) {
      var sources, target :| Swapped(c, d, sources, target);
    }
  }

  /** From no aliases, the two always agree, and once they point at an index they always do. */
  lemma {:induction false} AliasesAgree(run: seq<Cluster>, j: nat, k: nat)
    requires IsRun(run) && j <= k < |run| && run[0].read == {} && run[0].write == {}
    ensures Agree(run[j]) && Agree(run[k]) && (run[j].read != {} ==> run[k].read != {})
    decreases k
  {
    if k > 0 {
      AliasesAgree(run, if j < k then j else k - 1, k - 1);
      assert StepAt(run, k);
      StepKeepsAgreement(run[k - 1], run[k]);
    }
  }

  /** Only a completed reindex moves them from one index to another: a bootstrap never does. */
  lemma AliasesMoveByReindex(run: seq<Cluster>, k: nat)
    requires IsRun(run) && 0 < k < |run| && run[0].read == {} && run[0].write == {}
    requires Moves(run[k - 1], run[k])
    ensures CompletesReindex(run[k - 1], run[k])
  {
    AliasesAgree(run, k - 1, k - 1);
    assert StepAt(run, k);
    StepKeepsAgreement(run[k - 1], run[k]);
  }
}
