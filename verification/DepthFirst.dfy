/** What depth-first walks rely on: finished nodes are closed under edges and numbered downwards, so they
    contain no cycle and everything reachable from them. */
module DepthFirst {
  import opened Graphs

  /** `b` can be reached from `a`. */
  ghost predicate Reaches<T(!new)>(edge: (T, T) -> bool, a: T, b: T) {
    exists w :: IsPathTo(edge, a, b, w)
  }

  ghost predicate IsPathTo<T>(edge: (T, T) -> bool, a: T, b: T, w: seq<T>) {
    w != [] && w[0] == a && w[|w| - 1] == b && IsWalk(edge, w)
  }

  /** Finished nodes: every edge leads to one that was finished before. */
  ghost predicate Finished<T(!new)>(edge: (T, T) -> bool, order: map<T, nat>) {
    forall a, b :: a in order && edge(a, b) ==> b in order && order[b] < order[a]
  }

  lemma ReachesItself<T(!new)>(edge: (T, T) -> bool, a: T)
    ensures Reaches(edge, a, a)
  {
    assert IsPathTo(edge, a, a, [a]);
  }

  lemma ReachesNext<T(!new)>(edge: (T, T) -> bool, a: T, b: T, c: T)
    requires Reaches(edge, a, b) && edge(b, c)
    ensures Reaches(edge, a, c)
  {
    var w :| IsPathTo(edge, a, b, w);
    assert IsPathTo(edge, a, c, w + [c]);
  }

  /** Nothing reachable from a finished node is left out. */
  lemma {:induction false} FinishedContains<T(!new)>(edge: (T, T) -> bool, order: map<T, nat>, w: seq<T>)
    requires Finished(edge, order) && w != [] && IsWalk(edge, w) && w[0] in order
    ensures w[|w| - 1] in order
    decreases |w|
  {
    if |w| > 1 {
      var last := |w| - 1;
      FinishedContains(edge, order, w[..last]);
      assert edge(w[last - 1], w[last - 1 + 1]);
    }
  }

  lemma FinishedReaches<T(!new)>(edge: (T, T) -> bool, order: map<T, nat>, a: T)
    requires Finished(edge, order) && a in order
    ensures forall b :: Reaches(edge, a, b) ==> b in order
  {
    forall b | Reaches(edge, a, b) ensures b in order {
      var w :| IsPathTo(edge, a, b, w);
      FinishedContains(edge, order, w);
    }
  }

  /** No cycle passes through a finished node. */
  lemma {:induction false} FinishedDecreases<T(!new)>(edge: (T, T) -> bool, order: map<T, nat>, w: seq<T>)
    requires Finished(edge, order) && |w| >= 2 && IsWalk(edge, w) && w[0] in order
    ensures w[|w| - 1] in order && order[w[|w| - 1]] < order[w[0]]
    decreases |w|
  {
    var last := |w| - 1;
    assert edge(w[last - 1], w[last - 1 + 1]);
    if |w| > 2 {
      FinishedDecreases(edge, order, w[..last]);
    }
  }

  lemma NoCycleThrough<T(!new)>(edge: (T, T) -> bool, order: map<T, nat>, w: seq<T>)
    requires Finished(edge, order) && w != [] && w[0] in order
    ensures !IsCycle(edge, w)
  {
    if IsCycle(edge, w) {
      FinishedDecreases(edge, order, w);
    }
  }

  /** Meeting a node of the current path again closes a cycle. */
  lemma BackEdge<T>(edge: (T, T) -> bool, path: seq<T>, again: T) returns (cycle: seq<T>)
    requires path != [] && again in path && IsWalk(edge, path) && edge(path[|path| - 1], again)
    ensures IsCycle(edge, cycle) && cycle[0] == again
  {
    var k :| 0 <= k < |path| && path[k] == again;
    cycle := path[k..] + [again];
    forall i | 0 <= i < |cycle| - 1 ensures edge(cycle[i], cycle[i + 1]) {
      assert cycle[i] == path[k + i];
      if k + i + 1 < |path| {
        assert cycle[i + 1] == path[k + i + 1];
      }
    }
  }

  lemma ExtendWalk<T>(edge: (T, T) -> bool, path: seq<T>, next: T)
    requires IsWalk(edge, path) && (path == [] || edge(path[|path| - 1], next))
    ensures IsWalk(edge, path + [next])
  {
  }

  ghost predicate Numbered<T>(order: map<T, nat>) {
    forall b :: b in order ==> order[b] < |order|
  }

  /** Finishing a node whose successors are all finished. */
  lemma FinishOne<T(!new)>(edge: (T, T) -> bool, order: map<T, nat>, a: T)
    requires Finished(edge, order) && Numbered(order) && a !in order && forall b :: edge(a, b) ==> b in order
    ensures Finished(edge, order[a := |order|]) && Numbered(order[a := |order|])
  {
    var more := order[a := |order|];
    assert more.Keys == order.Keys + {a};
    assert |more.Keys| == |order.Keys| + 1;
  }
}
