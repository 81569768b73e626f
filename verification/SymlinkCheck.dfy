/** The worklist that decides whether the links of a tree form a cycle. */
module SymlinkCheck {
  import opened Base
  import opened Text
  import opened Graphs
  import opened Kahn
  import opened SymlinkGraph

  /** The targets of all links, or an error when one is missing or unsafe. */
  method ResolveTargets(links: map<Path, Digest>, symlinks: map<Digest, Bytes>) returns (r: Result<map<Path, Path>, Issue>)
    requires [] !in links
    ensures r.Success? <==> TargetsSafe(links, symlinks)
    ensures r.Success? ==> r.value == TargetsOf(links, symlinks)
  {
    var targets: map<Path, Path> := map[];
    var todo := links.Keys;
    while todo != {}
      invariant todo <= links.Keys
      invariant targets.Keys == links.Keys - todo
      invariant forall p :: p in targets ==> links[p] in symlinks && SafeTarget(p, symlinks[links[p]]) == Some(targets[p])
      decreases todo
    {
      var path :| path in todo;
      if links[path] !in symlinks {
        return Failure(Missing);
      }
      var target := SafeTarget(path, symlinks[links[path]]);
      if target.None? {
        return Failure(InvalidEncoding);
      }
      targets := targets[path := target.value];
      todo := todo - {path};
    }
    assert targets.Keys == links.Keys;
    r := Success(targets);
  }

  /** The links among the prefixes of one target, each counted. */
  method CollectPrefixes(targets: map<Path, Path>, path: Path, counts: map<Path, nat>)
    returns (found: seq<Path>, incoming: map<Path, nat>)
    requires path in targets && counts.Keys == targets.Keys
    ensures Lists(LinkEdge(targets), path, found)
    ensures incoming.Keys == targets.Keys
    ensures forall q :: q in targets ==> incoming[q] == counts[q] + (if q in found then 1 else 0)
  {
    var target := targets[path];
    found, incoming := [], counts;
    var n := 0;
    while n < |target|
      invariant n <= |target|
      invariant Distinct(found)
      invariant forall q :: q in found <==> LinkEdge(targets)(path, q) && |q| <= n
      invariant incoming.Keys == targets.Keys
      invariant forall q :: q in targets ==> incoming[q] == counts[q] + (if q in found then 1 else 0)
    {
      var prefix := target[..n + 1];
      assert forall q :: LinkEdge(targets)(path, q) && |q| == n + 1 ==> q == prefix;
      assert prefix !in found;
      if prefix in targets {
        found, incoming := found + [prefix], incoming[prefix := incoming[prefix] + 1];
      }
      n := n + 1;
    }
  }

  method BuildGraph(targets: map<Path, Path>, ghost edge: (Path, Path) -> bool) returns (edges: map<Path, seq<Path>>, incoming: map<Path, nat>)
    requires edge == LinkEdge(targets)
    ensures ListsEdges(edge, targets.Keys, edges)
    ensures incoming.Keys == targets.Keys && CountsSources(edge, targets.Keys, incoming)
  {
    edges, incoming := map[], map p | p in targets :: 0;
    NoSources(edge, incoming);
    var done: set<Path> := {};
    while done != targets.Keys
      invariant done <= targets.Keys
      invariant ListsEdges(edge, done, edges)
      invariant incoming.Keys == targets.Keys && CountsSources(edge, done, incoming)
      decreases targets.Keys - done
    {
      assert targets.Keys - done != {};
      var path :| path in targets.Keys - done;
      var found, counts := CollectPrefixes(targets, path, incoming);
      ListOne(edge, done, edges, path, found);
      CountUp(edge, done, path, found, incoming, counts);
      edges, incoming := edges[path := found], counts;
      done := done + {path};
    }
  }

  /** Rejects unsafe targets and link cycles, and nothing else. */
  method ValidateSymlinkGraph(links: map<Path, Digest>, symlinks: map<Digest, Bytes>) returns (r: Result<(), Issue>)
    requires [] !in links
    ensures r.Success? <==> TargetsSafe(links, symlinks) && Acyclic(LinkEdge(TargetsOf(links, symlinks)))
  {
    var resolved := ResolveTargets(links, symlinks);
    if resolved.Failure? {
      return Failure(resolved.error);
    }
    var targets := resolved.value;
    ghost var edge := LinkEdge(targets);
    var edges, incoming := BuildGraph(targets, edge);
    var acyclic := Drain(edge, edges, incoming);
    r := if acyclic then Success(()) else Failure(InvalidEncoding);
  }
}
