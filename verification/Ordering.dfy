/** Sorting a set of identifiers by rank, as the database does for a query with a sort. */
module Ordering {
  /** A sort key: compared by `major`, then by `minor`. */
  datatype Rank = Rank(major: int, minor: int)

  type Ranking = nat -> Rank

  predicate Before(a: Rank, b: Rank) {
    a.major < b.major || (a.major == b.major && a.minor < b.minor)
  }

  /** No two of `ids` have the same rank. */
  ghost predicate Ranks(rank: Ranking, ids: set<nat>) {
    forall x, y :: x in ids && y in ids && rank(x) == rank(y) ==> x == y
  }

  predicate IsFirst(ids: set<nat>, rank: Ranking, x: nat) {
    x in ids && forall y :: y in ids && y != x ==> Before(rank(x), rank(y))
  }

  lemma {:induction false} FirstExists(ids: set<nat>, rank: Ranking)
    requires ids != {} && Ranks(rank, ids)
    ensures exists x :: x in ids && IsFirst(ids, rank, x)
    decreases |ids|
  {
    var a :| a in ids;
    var rest := ids - {a};
    assert ids == rest + {a};
    if rest == {} {
      assert IsFirst(ids, rank, a);
    } else {
      FirstExists(rest, rank);
      var b :| b in rest && IsFirst(rest, rank, b);
      assert rank(a) != rank(b);
      if Before(rank(a), rank(b)) { assert IsFirst(ids, rank, a); } else { assert IsFirst(ids, rank, b); }
    }
  }

  function First(ids: set<nat>, rank: Ranking): (x: nat)
    requires ids != {} && Ranks(rank, ids)
    ensures IsFirst(ids, rank, x)
  {
    FirstExists(ids, rank);
    var x :| x in ids && IsFirst(ids, rank, x);
    x
  }

  /** `ids` in order of rank. */
  function Arrange(ids: set<nat>, rank: Ranking): seq<nat>
    requires Ranks(rank, ids)
  {
    if ids == {} then [] else
    var x := First(ids, rank);
    [x] + Arrange(ids - {x}, rank)
  }

  predicate Ascending(s: seq<nat>, rank: Ranking) {
    forall i, j :: 0 <= i < j < |s| ==> Before(rank(s[i]), rank(s[j]))
  }

  ghost predicate Lists(s: seq<nat>, ids: set<nat>) {
    forall x :: x in s <==> x in ids
  }

  lemma AscendingCons(x: nat, s: seq<nat>, rank: Ranking)
    requires Ascending(s, rank) && forall y :: y in s ==> Before(rank(x), rank(y))
    ensures Ascending([x] + s, rank)
  {
    forall i, j | 0 <= i < j < |s| + 1 ensures Before(rank(([x] + s)[i]), rank(([x] + s)[j])) {
      assert ([x] + s)[j] == s[j - 1] && s[j - 1] in s;
    }
  }

  lemma {:induction false} ArrangeSorts(ids: set<nat>, rank: Ranking)
    requires Ranks(rank, ids)
    ensures Ascending(Arrange(ids, rank), rank) && Lists(Arrange(ids, rank), ids)
    ensures |Arrange(ids, rank)| == |ids|
  {
    if ids != {} {
      var x := First(ids, rank);
      ArrangeSorts(ids - {x}, rank);
      AscendingCons(x, Arrange(ids - {x}, rank), rank);
    }
  }

  lemma {:induction false} AscendingUnique(s: seq<nat>, t: seq<nat>, rank: Ranking)
    requires Ascending(s, rank) && Ascending(t, rank)
    requires forall x :: x in s <==> x in t
    ensures s == t
  {
    assert s == [] || s[0] in t;
    assert t == [] || t[0] in s;
    if s != [] {
      assert s[0] == t[0];
      forall x ensures x in s[1..] <==> x in t[1..] {
        assert x in s[1..] ==> x != s[0] && x in s;
        assert x in t[1..] ==> x != t[0] && x in t;
      }
      AscendingUnique(s[1..], t[1..], rank);
    }
  }

  /** There is only one way to list a set in order. */
  lemma ArrangeIs(ids: set<nat>, rank: Ranking, s: seq<nat>)
    requires Ranks(rank, ids) && Ascending(s, rank) && Lists(s, ids)
    ensures s == Arrange(ids, rank)
  {
    ArrangeSorts(ids, rank);
    AscendingUnique(s, Arrange(ids, rank), rank);
  }

  function Take<T>(s: seq<T>, n: nat): seq<T> {
    if n <= |s| then s[..n] else s
  }

  /** The first `n` of a set: in order, and before all that is left out, which is nothing unless there are
      `n` of them. */
  lemma TakeMeans(ids: set<nat>, rank: Ranking, n: nat)
    requires Ranks(rank, ids)
    ensures var s := Take(Arrange(ids, rank), n);
      && |s| <= n && Ascending(s, rank) && (forall x :: x in s ==> x in ids)
      && (forall x :: x in ids && x !in s ==> |s| == n)
      && (forall x, y :: x in s && y in ids && y !in s ==> Before(rank(x), rank(y)))
  {
    var all := Arrange(ids, rank);
    ArrangeSorts(ids, rank);
    var s := Take(all, n);
    forall x, y | x in s && y in ids && y !in s ensures Before(rank(x), rank(y)) {
      var i :| 0 <= i < |s| && s[i] == x;
      assert y in all;
      var j :| 0 <= j < |all| && all[j] == y;
      assert all[i] == x && j >= |s|;
    }
  }

  lemma {:induction false} SomeLeftOut(all: set<nat>, ids: seq<nat>)
    requires |ids| < |all|
    ensures exists x :: x in all && x !in ids
    decreases |ids|
  {
    if ids == [] {
      var x :| x in all;
      assert x !in ids;
    } else {
      SomeLeftOut(all - {ids[0]}, ids[1..]);
      var x :| x in all - {ids[0]} && x !in ids[1..];
      assert x !in ids;
    }
  }

  function Reversed(s: seq<nat>): seq<nat> {
    seq(|s|, i requires 0 <= i < |s| => s[|s| - 1 - i])
  }

  lemma ReversedLists(s: seq<nat>, x: nat)
    ensures x in Reversed(s) <==> x in s
  {
    if x in s {
      var i :| 0 <= i < |s| && s[i] == x;
      assert Reversed(s)[|s| - 1 - i] == x;
    }
  }

  /** If one ranking runs against the other, so do the arrangements. */
  lemma ArrangeReversed(ids: set<nat>, up: Ranking, down: Ranking)
    requires Ranks(up, ids) && Ranks(down, ids)
    requires forall x, y :: x in ids && y in ids ==> (Before(up(x), up(y)) <==> Before(down(y), down(x)))
    ensures Arrange(ids, up) == Reversed(Arrange(ids, down))
  {
    var s := Arrange(ids, down);
    ArrangeSorts(ids, down);
    forall x ensures x in Reversed(s) <==> x in ids { ReversedLists(s, x); }
    forall i, j | 0 <= i < j < |s| ensures Before(up(Reversed(s)[i]), up(Reversed(s)[j])) {
      assert Before(down(s[|s| - 1 - j]), down(s[|s| - 1 - i]));
      assert s[|s| - 1 - j] in s && s[|s| - 1 - i] in s;
    }
    ArrangeIs(ids, up, Reversed(s));
  }
}
