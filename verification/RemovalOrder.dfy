/** The order in which unreachable generations are unlinked: every child before its predecessor. */
module RemovalOrder {
  import opened Base
  import opened Graphs
  import opened Kahn
  import opened Store

  datatype OrderError = Underflow | DependencyCycle

  /** `a` is an unreachable generation whose predecessor `b` is unreachable too. */
  ghost function PredecessorEdge(generations: map<Digest, Generation>, removed: set<Digest>): (Digest, Digest) -> bool {
    (a, b) => a in removed && b in removed && a in generations && generations[a].previous == Some(b)
  }

  ghost predicate Forward(edge: (Digest, Digest) -> bool, order: seq<Digest>) {
    forall i, j :: 0 <= i < |order| && 0 <= j < |order| && edge(order[i], order[j]) ==> i < j
  }

  /** `order` lists the removed generations once each, children first. */
  ghost predicate ChildrenFirst(generations: map<Digest, Generation>, removed: set<Digest>, order: seq<Digest>) {
    && Distinct(order) && (forall d :: d in order <==> d in removed)
    && Forward(PredecessorEdge(generations, removed), order)
  }

  type Counts = map<Digest, nat>

  /** The generations that nothing left points at. */
  ghost predicate LeavesExact(left: set<Digest>, counts: Counts, leaves: set<Digest>)
    requires left <= counts.Keys
  {
    forall q :: q in leaves <==> q in left && counts[q] == 0
  }

  method CountChildren(generations: map<Digest, Generation>, removed: set<Digest>) returns (counts: Counts)
    requires removed <= generations.Keys
    ensures counts.Keys == removed && CountsSources(PredecessorEdge(generations, removed), removed, counts)
  {
    hide CountsSources;
    ghost var edge := PredecessorEdge(generations, removed);
    counts := map d | d in removed :: 0;
    NoSources(edge, counts);
    var done: set<Digest> := {};
    while done != removed
      invariant done <= removed && counts.Keys == removed && CountsSources(edge, done, counts)
      decreases removed - done
    {
      assert !(removed <= done);
      var d :| d in removed && d !in done;
      var found := Dependencies(generations, removed, d);
      ghost var before := counts;
      if found != [] {
        counts := counts[found[0] := counts[found[0]] + 1];
      }
      CountUp(edge, done, d, found, before, counts);
      done := done + {d};
    }
  }

  /** The predecessor of a generation, when it is among the removed ones. */
  method Dependencies(generations: map<Digest, Generation>, removed: set<Digest>, d: Digest) returns (found: seq<Digest>)
    requires d in removed && removed <= generations.Keys
    ensures Lists(PredecessorEdge(generations, removed), d, found) && |found| <= 1 && forall q :: q in found ==> q in removed
  {
    found := [];
    var previous := generations[d].previous;
    if previous.Some? && previous.value in removed {
      found := [previous.value];
    }
  }

  /** What has been ordered so far: exactly the settled generations, each before what it depends upon. */
  ghost predicate Ordered(edge: (Digest, Digest) -> bool, left: set<Digest>, removed: set<Digest>, order: seq<Digest>) {
    Distinct(order) && (forall d :: d in order <==> d in removed - left) && Forward(edge, order)
  }

  lemma OrderedStep(edge: (Digest, Digest) -> bool, left: set<Digest>, removed: set<Digest>, order: seq<Digest>, d: Digest)
    requires Ordered(edge, left, removed, order) && d in left && left <= removed
    requires SettledClosed(edge, left) && |Sources(edge, left, d)| == 0
    ensures Ordered(edge, left - {d}, removed, order + [d])
  {
    NothingPointsAt(edge, left, d);
    var more := order + [d];
    assert d !in order;
    forall j | 0 <= j < |order| ensures !edge(d, order[j]) {
      assert order[j] in order;
    }
    assert Forward(edge, more);
  }

  lemma RankFromOrder(edge: (Digest, Digest) -> bool, removed: set<Digest>, order: seq<Digest>)
    requires Ordered(edge, {}, removed, order) && forall a, b :: edge(a, b) ==> a in removed && b in removed
    ensures Acyclic(edge)
  {
    var rank := (d: Digest) => if d in order then IndexOf(order, d) else 0;
    forall a, b | edge(a, b) ensures rank(a) < rank(b) {
      assert a in order && b in order;
      assert order[IndexOf(order, a)] == a && order[IndexOf(order, b)] == b;
    }
    RankedIsAcyclic(edge, rank);
  }

  ghost function IndexOf(order: seq<Digest>, d: Digest): (i: nat)
    requires d in order
    ensures i < |order| && order[i] == d
  {
    var i :| 0 <= i < |order| && order[i] == d;
    i
  }

  /** Succeeds exactly when no predecessor cycle exists; a counter never underflows. */
  method OrderGenerationRemovals(generations: map<Digest, Generation>, reachable: set<Digest>)
    returns (r: Result<seq<Digest>, OrderError>)
    ensures var removed := generations.Keys - reachable;
      && (r.Success? <==> Acyclic(PredecessorEdge(generations, removed)))
      && (r.Success? ==> ChildrenFirst(generations, removed, r.value))
    ensures r != Failure(Underflow)
  {
    hide CountsSources, Ordered, SettledClosed;
    var removed := generations.Keys - reachable;
    ghost var edge := PredecessorEdge(generations, removed);
    var counts := CountChildren(generations, removed);
    var leaves := set d | d in removed && counts[d] == 0;
    var order: seq<Digest> := [];
    ghost var left := removed;
    NothingOrdered(edge, removed);
    while leaves != {}
      invariant left <= removed == counts.Keys && |order| == |removed| - |left|
      invariant CountsSources(edge, left, counts) && LeavesExact(left, counts, leaves)
      invariant SettledClosed(edge, left) && Ordered(edge, left, removed, order)
      decreases left
    {
      var d :| d in leaves;
      NoSourcesCounted(edge, left, counts, d);
      OrderedStep(edge, left, removed, order, d);
      SettledStep(edge, left, d, counts);
      order := order + [d];
      var ok;
      ok, counts, leaves := ReleasePredecessor(generations, removed, left, counts, leaves, d);
      if !ok {
        return Failure(Underflow);
      }
      left := left - {d};
    }
    if |order| != |removed| {
      StuckLeavesHaveCycle(edge, left, counts);
      return Failure(DependencyCycle);
    }
    assert left == {} by {
      assert |left| == 0;
    }
    RankFromOrder(edge, removed, order);
    OrderComplete(generations, removed, order);
    r := Success(order);
  }

  /** Takes a leaf off: its predecessor has one child less, and may have become a leaf. */
  method ReleasePredecessor(generations: map<Digest, Generation>, removed: set<Digest>, ghost left: set<Digest>,
                            counts: Counts, leaves: set<Digest>, d: Digest)
    returns (ok: bool, next: Counts, more: set<Digest>)
    requires removed <= generations.Keys && left <= removed == counts.Keys && d in leaves && d in left
    requires LeavesExact(left, counts, leaves) && SettledClosed(PredecessorEdge(generations, removed), left)
    requires CountsSources(PredecessorEdge(generations, removed), left, counts)
    ensures ok && next.Keys == removed && LeavesExact(left - {d}, next, more)
    ensures CountsSources(PredecessorEdge(generations, removed), left - {d}, next)
  {
    hide CountsSources, SettledClosed;
    ghost var edge := PredecessorEdge(generations, removed);
    var found := Dependencies(generations, removed, d);
    ok, next, more := true, counts, leaves - {d};
    if found != [] {
      var previous := found[0];
      DependencyWaits(edge, left, counts, d, previous);
      if counts[previous] == 0 {
        return false, next, more;
      }
      next := counts[previous := counts[previous] - 1];
      if next[previous] == 0 {
        more := more + {previous};
      }
    }
    CountDown(edge, left, d, found, counts, next);
  }

  lemma NothingOrdered(edge: (Digest, Digest) -> bool, removed: set<Digest>)
    requires forall a, b :: edge(a, b) ==> a in removed && b in removed
    ensures Ordered(edge, removed, removed, []) && SettledClosed(edge, removed)
  {
  }

  lemma OrderComplete(generations: map<Digest, Generation>, removed: set<Digest>, order: seq<Digest>)
    requires Ordered(PredecessorEdge(generations, removed), {}, removed, order)
    ensures ChildrenFirst(generations, removed, order)
  {
  }

  lemma SettledStep(edge: (Digest, Digest) -> bool, left: set<Digest>, d: Digest, counts: Counts)
    requires d in left && d in counts && CountsSources(edge, left, counts) && counts[d] == 0 && SettledClosed(edge, left)
    ensures SettledClosed(edge, left - {d})
  {
    NothingPointsAt(edge, left, d);
  }

  lemma StuckLeavesHaveCycle(edge: (Digest, Digest) -> bool, left: set<Digest>, counts: Counts)
    requires left <= counts.Keys && |left| != 0
    requires CountsSources(edge, left, counts) && LeavesExact(left, counts, {})
    ensures !Acyclic(edge)
  {
    assert left != {};
    StuckQueueHasCycle(edge, left, counts);
  }

  /** After any number of removals, every remaining generation still has the predecessor it had. */
  lemma PredecessorsOutliveChildren(generations: map<Digest, Generation>, removed: set<Digest>, order: seq<Digest>, n: nat, d: Digest)
    requires ChildrenFirst(generations, removed, order) && n <= |order|
    requires d in removed && d in generations && generations[d].previous.Some? && d !in order[..n]
    ensures generations[d].previous.value !in order[..n]
  {
    var p := generations[d].previous.value;
    assert order == order[..n] + order[n..] && d in order;
    var k :| 0 <= k < |order| - n && order[n..][k] == d;
    assert order[n + k] == d;
    if p in removed {
      assert PredecessorEdge(generations, removed)(d, p);
    } else {
      assert p !in order;
    }
  }
}
