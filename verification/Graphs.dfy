/** Walks and cycles in a finite directed graph.  Three worklist algorithms of the store and two
    depth-first ones are judged against these definitions. */
module Graphs {

  ghost predicate IsWalk<T>(edge: (T, T) -> bool, w: seq<T>) {
    forall i :: 0 <= i < |w| - 1 ==> edge(w[i], w[i + 1])
  }

  ghost predicate IsCycle<T>(edge: (T, T) -> bool, w: seq<T>) {
    |w| >= 2 && w[0] == w[|w| - 1] && IsWalk(edge, w)
  }

  ghost predicate Acyclic<T(!new)>(edge: (T, T) -> bool) {
    forall w :: !IsCycle(edge, w)
  }

  ghost predicate Distinct<T>(s: seq<T>) {
    forall i, j :: 0 <= i < j < |s| ==> s[i] != s[j]
  }

  ghost predicate Elements<T>(w: seq<T>, s: set<T>) {
    forall x :: x in w ==> x in s
  }

  /** Some member of the set points at `y`. */
  ghost predicate HasPredecessor<T>(edge: (T, T) -> bool, s: set<T>, y: T) {
    exists x :: x in s && edge(x, y)
  }

  lemma {:induction false} DistinctBounded<T>(w: seq<T>, s: set<T>)
    requires Distinct(w) && Elements(w, s)
    ensures |w| <= |s|
  {
    if w != [] {
      var k := |w| - 1;
      assert forall x :: x in w[..k] ==> x in s && x != w[k];
      DistinctBounded(w[..k], s - {w[k]});
    }
  }

  /** Along a walk a strictly increasing rank increases. */
  lemma {:induction false} RankAlongWalk<T>(edge: (T, T) -> bool, rank: T -> int, w: seq<T>)
    requires IsWalk(edge, w) && |w| >= 2
    requires forall i :: 0 <= i < |w| - 1 ==> rank(w[i]) < rank(w[i + 1])
    ensures rank(w[0]) < rank(w[|w| - 1])
  {
    if |w| > 2 {
      var v := w[..|w| - 1];
      RankAlongWalk(edge, rank, v);
      assert rank(w[|w| - 2]) < rank(w[|w| - 2 + 1]);
    }
  }

  lemma RankedIsAcyclic<T(!new)>(edge: (T, T) -> bool, rank: T -> int)
    requires forall x, y :: edge(x, y) ==> rank(x) < rank(y)
    ensures Acyclic(edge)
  {
    forall w ensures !IsCycle(edge, w) {
      if IsCycle(edge, w) {
        RankAlongWalk(edge, rank, w);
      }
    }
  }

  /** Following predecessors inside a finite set must come back on itself. */
  lemma {:induction false} ChaseBack<T>(edge: (T, T) -> bool, s: set<T>, w: seq<T>) returns (cycle: seq<T>)
    requires w != [] && Distinct(w) && Elements(w, s) && IsWalk(edge, w)
    requires forall y {:trigger HasPredecessor(edge, s, y)} :: y in s ==> HasPredecessor(edge, s, y)
    ensures IsCycle(edge, cycle) && Elements(cycle, s)
    decreases |s| - |w|
  {
    DistinctBounded(w, s);
    assert w[0] in s && HasPredecessor(edge, s, w[0]);
    var x :| x in s && edge(x, w[0]);
    var longer := [x] + w;
    assert IsWalk(edge, longer);
    if x in w {
      var k :| 0 <= k < |w| && w[k] == x;
      cycle := longer[..k + 2];
      assert Elements(longer, s);
    } else {
      DistinctBounded(longer, s);
      cycle := ChaseBack(edge, s, longer);
    }
  }

  /** A nonempty finite set in which every member has a predecessor in the set holds a cycle. */
  lemma StuckSetHasCycle<T>(edge: (T, T) -> bool, s: set<T>) returns (cycle: seq<T>)
    requires s != {}
    requires forall y {:trigger HasPredecessor(edge, s, y)} :: y in s ==> HasPredecessor(edge, s, y)
    ensures IsCycle(edge, cycle) && Elements(cycle, s)
  {
    var y :| y in s;
    cycle := ChaseBack(edge, s, [y]);
  }

  /** An acyclic relation on a finite set has a rank that increases along every edge. */
  lemma {:induction false} AcyclicHasRank<T(!new)>(edge: (T, T) -> bool, s: set<T>) returns (rank: map<T, nat>)
    requires Acyclic(edge)
    ensures rank.Keys == s
    ensures forall x, y :: x in s && y in s && edge(x, y) ==> rank[x] < rank[y]
    ensures forall x :: x in s ==> rank[x] < |s|
  {
    if s == {} {
      rank := map[];
    } else {
      if forall y {:trigger HasPredecessor(edge, s, y)} :: y in s ==> HasPredecessor(edge, s, y) {
        var cycle := StuckSetHasCycle(edge, s);
        assert false;
      }
      var first :| first in s && !HasPredecessor(edge, s, first);
      var rest := AcyclicHasRank(edge, s - {first});
      rank := map x | x in s :: if x == first then 0 else rest[x] + 1;
    }
  }

  lemma WalkSlice<T>(edge: (T, T) -> bool, w: seq<T>, lo: nat, hi: nat)
    requires IsWalk(edge, w) && lo <= hi <= |w|
    ensures IsWalk(edge, w[lo..hi])
  {
    forall k | 0 <= k < hi - lo - 1 ensures edge(w[lo..hi][k], w[lo..hi][k + 1]) {
      assert edge(w[lo + k], w[lo + k + 1]);
    }
  }

  /** Walks compose. */
  lemma WalkJoin<T>(edge: (T, T) -> bool, u: seq<T>, v: seq<T>)
    requires IsWalk(edge, u) && IsWalk(edge, v) && u != [] && v != []
    requires u[|u| - 1] == v[0]
    ensures IsWalk(edge, u + v[1..])
  {
    var w := u + v[1..];
    forall i | 0 <= i < |w| - 1 ensures edge(w[i], w[i + 1]) {
      if i < |u| - 1 {
        assert edge(u[i], u[i + 1]);
      } else {
        assert edge(v[i - |u| + 1], v[i - |u| + 2]);
      }
    }
  }
}
