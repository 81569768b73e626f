/** Kahn's algorithm on a finite graph given by adjacency lists and in-degree counters. */
module Kahn {
  import opened Graphs

  /** Members of `pool` that have an edge to `q`. */
  ghost function Sources<T>(edge: (T, T) -> bool, pool: set<T>, q: T): set<T> {
    set p | p in pool && edge(p, q)
  }

  /** `out` holds exactly the dependencies of `p`, each once. */
  ghost predicate Lists<T(!new)>(edge: (T, T) -> bool, p: T, out: seq<T>) {
    Distinct(out) && forall q :: q in out <==> edge(p, q)
  }

  ghost predicate ListsEdges<T(!new)>(edge: (T, T) -> bool, pool: set<T>, edges: map<T, seq<T>>) {
    edges.Keys == pool && forall p :: p in pool ==> Lists(edge, p, edges[p])
  }

  ghost predicate CountsSources<T>(edge: (T, T) -> bool, pool: set<T>, incoming: map<T, nat>) {
    forall q :: q in incoming ==> incoming[q] == |Sources(edge, pool, q)|
  }

  /** Whatever has an edge to a settled link is settled. */
  ghost predicate SettledClosed<T(!new)>(edge: (T, T) -> bool, left: set<T>) {
    forall p, q :: edge(p, q) && q !in left ==> p !in left
  }

  /** The queue holds exactly the waiting links nothing points at any more, each once. */
  ghost predicate QueueExact<T(!new)>(left: set<T>, incoming: map<T, nat>, queue: seq<T>)
    requires left <= incoming.Keys
  {
    Distinct(queue) && forall q :: q in queue <==> q in left && incoming[q] == 0
  }

  lemma AddSource<T>(edge: (T, T) -> bool, pool: set<T>, p: T, q: T)
    requires p !in pool
    ensures |Sources(edge, pool + {p}, q)| == |Sources(edge, pool, q)| + (if edge(p, q) then 1 else 0)
  {
    var before, after := Sources(edge, pool, q), Sources(edge, pool + {p}, q);
    if edge(p, q) {
      assert after == before + {p};
    } else {
      assert after == before;
    }
  }

  lemma CountUp<T(!new)>(edge: (T, T) -> bool, done: set<T>, path: T, found: seq<T>, before: map<T, nat>, after: map<T, nat>)
    requires path !in done && Lists(edge, path, found) && before.Keys == after.Keys
    requires CountsSources(edge, done, before)
    requires forall q :: q in before ==> after[q] == before[q] + (if q in found then 1 else 0)
    ensures CountsSources(edge, done + {path}, after)
  {
    forall q | q in after ensures after[q] == |Sources(edge, done + {path}, q)| {
      AddSource(edge, done, path, q);
    }
  }

  lemma NoSources<T(!new)>(edge: (T, T) -> bool, incoming: map<T, nat>)
    requires forall q :: q in incoming ==> incoming[q] == 0
    ensures CountsSources(edge, {}, incoming)
  {
    forall q | q in incoming ensures incoming[q] == |Sources(edge, {}, q)| {
      assert Sources(edge, {}, q) == {};
    }
  }

  lemma ListOne<T(!new)>(edge: (T, T) -> bool, done: set<T>, edges: map<T, seq<T>>, p: T, found: seq<T>)
    requires ListsEdges(edge, done, edges) && Lists(edge, p, found)
    ensures ListsEdges(edge, done + {p}, edges[p := found])
  {
  }

  lemma CountDown<T(!new)>(edge: (T, T) -> bool, left: set<T>, path: T, found: seq<T>, before: map<T, nat>, after: map<T, nat>)
    requires path in left && Lists(edge, path, found) && before.Keys == after.Keys
    requires CountsSources(edge, left, before)
    requires forall q :: q in before ==> after[q] + (if q in found then 1 else 0) == before[q]
    ensures CountsSources(edge, left - {path}, after)
  {
    forall q | q in after ensures after[q] == |Sources(edge, left - {path}, q)| {
      AddSource(edge, left - {path}, path, q);
      assert left - {path} + {path} == left;
    }
  }

  /** A link about to be released is still waiting, is counted, and is not the link being taken. */
  lemma DependencyWaits<T(!new)>(edge: (T, T) -> bool, left: set<T>, incoming: map<T, nat>, path: T, dependency: T)
    requires path in left && left <= incoming.Keys && SettledClosed(edge, left)
    requires CountsSources(edge, left, incoming) && incoming[path] == 0 && edge(path, dependency)
    ensures dependency in left && dependency != path && incoming[dependency] >= 1
  {
    assert path in Sources(edge, left, dependency);
  }

  /** Lowering one counter keeps the queue exact when a counter that reaches zero is enqueued. */
  lemma EnqueueKeepsExact<T(!new)>(left: set<T>, before: map<T, nat>, queue: seq<T>, q: T)
    requires left <= before.Keys && QueueExact(left, before, queue)
    requires q in left && before[q] >= 1
    ensures var after := before[q := before[q] - 1];
            QueueExact(left, after, if after[q] == 0 then queue + [q] else queue)
  {
    assert q !in queue;
  }

  lemma DequeueKeepsExact<T(!new)>(left: set<T>, incoming: map<T, nat>, queue: seq<T>)
    requires left <= incoming.Keys && QueueExact(left, incoming, queue) && queue != []
    ensures queue[0] in left && incoming[queue[0]] == 0
    ensures QueueExact(left - {queue[0]}, incoming, queue[1..])
  {
    assert queue == [queue[0]] + queue[1..];
  }

  /** Takes one node off the queue and releases what it depends upon.  No counter underflows. */
  method Release<T(==, !new)>(ghost edge: (T, T) -> bool, ghost left: set<T>, node: T, found: seq<T>, counts: map<T, nat>, queue: seq<T>)
    returns (incoming: map<T, nat>, ready: seq<T>)
    requires node in left && left <= counts.Keys && SettledClosed(edge, left)
    requires CountsSources(edge, left, counts) && counts[node] == 0
    requires Lists(edge, node, found)
    requires QueueExact(left - {node}, counts, queue)
    ensures incoming.Keys == counts.Keys && CountsSources(edge, left - {node}, incoming)
    ensures QueueExact(left - {node}, incoming, ready)
  {
    incoming, ready := counts, queue;
    ghost var released: set<T> := {};
    var k := 0;
    while k < |found|
      invariant k <= |found| && incoming.Keys == counts.Keys
      invariant forall j :: 0 <= j < |found| ==> (found[j] in released <==> j < k)
      invariant forall q :: q in released ==> q in found
      invariant Lowered(counts, incoming, released)
      invariant QueueExact(left - {node}, incoming, ready)
    {
      DependencyWaits(edge, left, counts, node, found[k]);
      EnqueueKeepsExact(left - {node}, incoming, ready, found[k]);
      LowerOne(counts, incoming, released, found[k]);
      incoming := incoming[found[k] := incoming[found[k]] - 1];
      if incoming[found[k]] == 0 {
        ready := ready + [found[k]];
      }
      released := released + {found[k]};
      k := k + 1;
    }
    CountDown(edge, left, node, found, counts, incoming);
  }

  ghost predicate Lowered<T>(before: map<T, nat>, after: map<T, nat>, released: set<T>) {
    before.Keys == after.Keys && forall q :: q in before ==> after[q] + (if q in released then 1 else 0) == before[q]
  }

  lemma LowerOne<T>(before: map<T, nat>, after: map<T, nat>, released: set<T>, q: T)
    requires Lowered(before, after, released) && q in before && q !in released && before[q] >= 1
    ensures Lowered(before, after[q := after[q] - 1], released + {q})
  {
  }

  method StartQueue<T(==, !new)>(incoming: map<T, nat>) returns (ready: seq<T>)
    ensures QueueExact(incoming.Keys, incoming, ready)
  {
    ready := [];
    var todo := incoming.Keys;
    while todo != {}
      invariant todo <= incoming.Keys
      invariant QueueExact(incoming.Keys - todo, incoming, ready)
      decreases todo
    {
      var q :| q in todo;
      if incoming[q] == 0 {
        ready := ready + [q];
      }
      todo := todo - {q};
    }
    assert incoming.Keys - todo == incoming.Keys;
  }

  lemma NothingPointsAt<T(!new)>(edge: (T, T) -> bool, left: set<T>, path: T)
    requires |Sources(edge, left, path)| == 0
    ensures forall p :: edge(p, path) ==> p !in left
  {
    forall p | edge(p, path) ensures p !in left {
      assert p in left ==> p in Sources(edge, left, path);
    }
  }

  lemma CountedHasPredecessor<T(!new)>(edge: (T, T) -> bool, left: set<T>, q: T)
    requires |Sources(edge, left, q)| != 0
    ensures HasPredecessor(edge, left, q)
  {
    var p :| p in Sources(edge, left, q);
  }

  lemma StuckQueueHasCycle<T(!new)>(edge: (T, T) -> bool, left: set<T>, incoming: map<T, nat>)
    requires left <= incoming.Keys && left != {}
    requires CountsSources(edge, left, incoming) && QueueExact(left, incoming, [])
    ensures !Acyclic(edge)
  {
    forall q {:trigger HasPredecessor(edge, left, q)} | q in left ensures HasPredecessor(edge, left, q) {
      assert incoming[q] != 0;
      CountedHasPredecessor(edge, left, q);
    }
    var cycle := StuckSetHasCycle(edge, left);
  }

  /** The settled nodes carry ranks that increase along every edge into them. */
  ghost predicate Ranked<T(!new)>(edge: (T, T) -> bool, nodes: set<T>, left: set<T>, rank: map<T, int>) {
    && rank.Keys == nodes - left
    && (forall p, q :: edge(p, q) && q !in left ==> p in rank && q in rank && rank[p] < rank[q])
    && forall p :: p in rank ==> rank[p] < |nodes| - |left|
  }

  lemma SettleOne<T(!new)>(edge: (T, T) -> bool, nodes: set<T>, left: set<T>, rank: map<T, int>, node: T)
    requires left <= nodes && node in left && Ranked(edge, nodes, left, rank)
    requires forall p, q :: edge(p, q) ==> p in nodes && q in nodes
    requires |Sources(edge, left, node)| == 0
    ensures Ranked(edge, nodes, left - {node}, rank[node := |nodes| - |left|])
    ensures SettledClosed(edge, left - {node})
  {
    NothingPointsAt(edge, left, node);
  }

  /** Kahn's algorithm: true exactly when the graph has no cycle. */
  method Drain<T(==, !new)>(ghost edge: (T, T) -> bool, edges: map<T, seq<T>>, counts: map<T, nat>) returns (acyclic: bool)
    requires edges.Keys == counts.Keys
    requires forall p, q :: edge(p, q) ==> p in edges && q in edges
    requires ListsEdges(edge, edges.Keys, edges) && CountsSources(edge, edges.Keys, counts)
    ensures acyclic <==> Acyclic(edge)
  {
    hide CountsSources, SettledClosed, QueueExact, Ranked, Acyclic;
    var incoming := counts;
    var ready := StartQueue(incoming);
    ghost var left, rank: map<T, int> := edges.Keys, map[];
    var visited := 0;
    StartRanked(edge, edges.Keys);
    while ready != []
      invariant left <= edges.Keys == incoming.Keys && visited == |edges.Keys| - |left|
      invariant CountsSources(edge, left, incoming) && QueueExact(left, incoming, ready)
      invariant SettledClosed(edge, left) && Ranked(edge, edges.Keys, left, rank)
      decreases left
    {
      var node, rest := ready[0], ready[1..];
      DequeueKeepsExact(left, incoming, ready);
      NoSourcesCounted(edge, left, incoming, node);
      SettleOne(edge, edges.Keys, left, rank, node);
      rank := rank[node := visited];
      incoming, ready := Release(edge, left, node, edges[node], incoming, rest);
      left := left - {node};
      visited := visited + 1;
    }
    if visited != |incoming| {
      assert |left| != 0;
      StuckQueueHasCycle(edge, left, incoming);
      return false;
    }
    assert |left| == 0;
    FinishRanked(edge, edges.Keys, left, rank);
    acyclic := true;
  }

  lemma NoSourcesCounted<T(!new)>(edge: (T, T) -> bool, left: set<T>, counts: map<T, nat>, node: T)
    requires node in counts && CountsSources(edge, left, counts) && counts[node] == 0
    ensures |Sources(edge, left, node)| == 0
  {
  }

  lemma StartRanked<T(!new)>(edge: (T, T) -> bool, nodes: set<T>)
    requires forall p, q :: edge(p, q) ==> p in nodes && q in nodes
    ensures SettledClosed(edge, nodes) && Ranked(edge, nodes, nodes, map[])
  {
  }

  lemma FinishRanked<T(!new)>(edge: (T, T) -> bool, nodes: set<T>, left: set<T>, rank: map<T, int>)
    requires left == {} && Ranked(edge, nodes, left, rank)
    ensures Acyclic(edge)
  {
    RankedIsAcyclic(edge, p => if p in rank then rank[p] else 0);
  }
}
