/** The search cluster as reindexing and bootstrap see it: physical indices, and the two aliases the
    program reads and writes through. */
module Aliases {
  import opened Events

  type Docs = map<string, StoredDocument>

  /** `read` and `write` are the indices that the two aliases point at. */
  datatype Cluster = Cluster(indices: map<string, Docs>, read: set<string>, write: set<string>)

  datatype Alias = Read | Write

  datatype AliasAction = Remove(alias: Alias, index: string) | Add(alias: Alias, index: string)

  class SearchCluster {
    var state: Cluster
  }

  predicate ValidCluster(c: Cluster) {
    c.read <= c.indices.Keys && c.write <= c.indices.Keys
  }

  // ---- Alias updates ----

  function ApplyAction(c: Cluster, a: AliasAction): Cluster {
    match a
    case Remove(Read, index) => c.(read := c.read - {index})
    case Remove(Write, index) => c.(write := c.write - {index})
    case Add(Read, index) => c.(read := c.read + {index})
    case Add(Write, index) => c.(write := c.write + {index})
  }

  /** One update carries out all of its actions, in order, as one atomic step. */
  function UpdateAliases(c: Cluster, actions: seq<AliasAction>): Cluster
    decreases |actions|
  {
    if actions == [] then c
    else UpdateAliases(ApplyAction(c, actions[0]), actions[1..])
  }

  lemma {:induction false} UpdateAppend(c: Cluster, a: seq<AliasAction>, b: seq<AliasAction>)
    ensures UpdateAliases(c, a + b) == UpdateAliases(UpdateAliases(c, a), b)
    decreases |a|
  {
    if a == [] {
      assert a + b == b;
    } else {
      assert (a + b)[1..] == a[1..] + b;
      UpdateAppend(ApplyAction(c, a[0]), a[1..], b);
    }
  }

  /** The members of a listing without repetition. */
  function Members(s: seq<string>): set<string> {
    set x | x in s
  }

  predicate Distinct(s: seq<string>) {
    forall i, j :: 0 <= i < j < |s| ==> s[i] != s[j]
  }

  /** List the indices of an alias. */
  method ListIndices(indices: set<string>) returns (s: seq<string>)
    ensures Members(s) == indices && Distinct(s) && |s| == |indices|
  {
    s := [];
    var rest := indices;
    while rest != {}
      invariant Members(s) + rest == indices && Members(s) !! rest
      invariant Distinct(s) && |s| + |rest| == |indices|
      decreases |rest|
    {
      var x :| x in rest;
      assert Members(s + [x]) == Members(s) + {x};
      s, rest := s + [x], rest - {x};
    }
  }

  // ---- Counting documents ----

  /** What a count over several indices gives: each index counted by itself. */
  function CountDocuments(c: Cluster, sources: seq<string>): nat
    requires Members(sources) <= c.indices.Keys
  {
    if sources == [] then 0 else
    assert sources[0] in Members(sources) && Members(sources[1..]) <= Members(sources);
    |c.indices[sources[0]]| + CountDocuments(c, sources[1..])
  }

  function AllIds(c: Cluster, sources: seq<string>): set<string>
    requires Members(sources) <= c.indices.Keys
  {
    if sources == [] then {} else
    assert sources[0] in Members(sources) && Members(sources[1..]) <= Members(sources);
    c.indices[sources[0]].Keys + AllIds(c, sources[1..])
  }

  predicate HasDoc(c: Cluster, index: string, id: string) {
    index in c.indices && id in c.indices[index]
  }

  /** No id is in two of the sources. */
  ghost predicate Disjoint(c: Cluster, sources: seq<string>)
    requires Members(sources) <= c.indices.Keys
  {
    forall i, j, id :: 0 <= i < j < |sources| ==> !(HasDoc(c, sources[i], id) && HasDoc(c, sources[j], id))
  }

  lemma {:induction false} AllIdsMeans(c: Cluster, sources: seq<string>, id: string)
    requires Members(sources) <= c.indices.Keys
    ensures id in AllIds(c, sources) <==> exists i :: 0 <= i < |sources| && HasDoc(c, sources[i], id)
  {
    if sources != [] {
      var rest := sources[1..];
      assert sources[0] in Members(sources) && Members(rest) <= Members(sources);
      AllIdsMeans(c, rest, id);
      if i :| 0 <= i < |sources| && HasDoc(c, sources[i], id) {
        assert i > 0 ==> rest[i - 1] == sources[i];
      }
      if i :| 0 <= i < |rest| && HasDoc(c, rest[i], id) {
        assert sources[i + 1] == rest[i];
      }
    }
  }

  lemma DisjointTail(c: Cluster, sources: seq<string>)
    requires sources != [] && Members(sources) <= c.indices.Keys
    ensures sources[0] in c.indices && Members(sources[1..]) <= c.indices.Keys
    ensures Disjoint(c, sources)
       <==> c.indices[sources[0]].Keys !! AllIds(c, sources[1..]) && Disjoint(c, sources[1..])
  {
    var rest := sources[1..];
    assert sources[0] in Members(sources) && Members(rest) <= Members(sources);
    forall id ensures id in AllIds(c, rest) <==> exists i :: 0 <= i < |rest| && HasDoc(c, rest[i], id) {
      AllIdsMeans(c, rest, id);
    }
    if Disjoint(c, sources) {
      forall i, j, id | 0 <= i < j < |rest| ensures !(HasDoc(c, rest[i], id) && HasDoc(c, rest[j], id)) {
        assert rest[i] == sources[i + 1] && rest[j] == sources[j + 1];
      }
      forall id | id in c.indices[sources[0]] ensures id !in AllIds(c, rest) {
        if i :| 0 <= i < |rest| && HasDoc(c, rest[i], id) {
          assert rest[i] == sources[i + 1] && HasDoc(c, sources[0], id);
        }
      }
    }
    if c.indices[sources[0]].Keys !! AllIds(c, rest) && Disjoint(c, rest) {
      forall i, j, id | 0 <= i < j < |sources| ensures !(HasDoc(c, sources[i], id) && HasDoc(c, sources[j], id)) {
        assert sources[j] == rest[j - 1];
        assert i > 0 ==> sources[i] == rest[i - 1];
        if i == 0 && HasDoc(c, sources[j], id) { assert id in AllIds(c, rest); }
      }
    }
  }

  lemma UnionSize(a: set<string>, b: set<string>)
    ensures |a + b| <= |a| + |b|
    ensures |a + b| == |a| + |b| <==> a !! b
  {
    assert |a + b| == |a| + |b| - |a * b|;
    if a * b == {} {
      forall x | x in a ensures x !in b { assert x !in a * b; }
    }
  }

  /** The count is at least the number of ids, and exactly that when no id is counted twice. */
  lemma {:induction false} CountBounds(c: Cluster, sources: seq<string>)
    requires Members(sources) <= c.indices.Keys
    ensures |AllIds(c, sources)| <= CountDocuments(c, sources)
    ensures |AllIds(c, sources)| == CountDocuments(c, sources) <==> Disjoint(c, sources)
  {
    if sources != [] {
      DisjointTail(c, sources);
      CountBounds(c, sources[1..]);
      UnionSize(c.indices[sources[0]].Keys, AllIds(c, sources[1..]));
    }
  }

  // ---- The count check ----

  /** Document `doc` is what one of the sources has under `id`. */
  ghost predicate FromSource(c: Cluster, sources: seq<string>, id: string, doc: StoredDocument) {
    exists i :: 0 <= i < |sources| && HasDoc(c, sources[i], id) && doc == c.indices[sources[i]][id]
  }

  /** What a copy that skips conflicts can leave: only documents of the sources, but not
      necessarily all of them. */
  ghost predicate IsCopy(c: Cluster, sources: seq<string>, target: Docs) {
    forall id :: id in target ==> FromSource(c, sources, id, target[id])
  }

  /** Every document of every source is in the target as it is. */
  ghost predicate HasAll(c: Cluster, sources: seq<string>, target: Docs) {
    forall i, id :: 0 <= i < |sources| && HasDoc(c, sources[i], id) ==>
      id in target && target[id] == c.indices[sources[i]][id]
  }

  /** The target is exactly the sources' documents together, and no id is in two sources, so that
      none has been overwritten. */
  ghost predicate IsUnion(c: Cluster, sources: seq<string>, target: Docs)
    requires Members(sources) <= c.indices.Keys
  {
    Disjoint(c, sources) && HasAll(c, sources, target) && target.Keys == AllIds(c, sources)
  }

  lemma CopyIsWithin(c: Cluster, sources: seq<string>, target: Docs)
    requires Members(sources) <= c.indices.Keys && IsCopy(c, sources, target)
    ensures target.Keys <= AllIds(c, sources)
  {
    forall id | id in target ensures id in AllIds(c, sources) {
      assert FromSource(c, sources, id, target[id]);
      AllIdsMeans(c, sources, id);
    }
  }

  lemma FullCopyHasAll(c: Cluster, sources: seq<string>, target: Docs)
    requires Members(sources) <= c.indices.Keys && IsCopy(c, sources, target) && Disjoint(c, sources)
    requires target.Keys == AllIds(c, sources)
    ensures HasAll(c, sources, target)
  {
    forall i, id | 0 <= i < |sources| && HasDoc(c, sources[i], id)
      ensures id in target && target[id] == c.indices[sources[i]][id]
    {
      AllIdsMeans(c, sources, id);
      assert id in target.Keys && FromSource(c, sources, id, target[id]);
      var j :| 0 <= j < |sources| && HasDoc(c, sources[j], id) && target[id] == c.indices[sources[j]][id];
      assert i == j;
    }
  }

  lemma SubsetSize(a: set<string>, b: set<string>)
    requires a <= b
    ensures |a| <= |b| && (|a| == |b| <==> a == b)
  {
    assert b == a + (b - a);
    UnionSize(a, b - a);
  }

  /** Equal counts mean that nothing was skipped and nothing overwritten, and conversely. */
  lemma CountCheckExact(c: Cluster, sources: seq<string>, target: Docs)
    requires Members(sources) <= c.indices.Keys && IsCopy(c, sources, target)
    ensures |target| == CountDocuments(c, sources) <==> IsUnion(c, sources, target)
  {
    CountBounds(c, sources);
    CopyIsWithin(c, sources, target);
    SubsetSize(target.Keys, AllIds(c, sources));
    if |target| == CountDocuments(c, sources) { FullCopyHasAll(c, sources, target); }
  }
}
