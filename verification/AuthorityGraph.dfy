/** The captured authorities of a configuration: every dependency resolves, there is no dependency cycle, and
    the root reaches every authority. */
module AuthorityGraph {
  import opened Base
  import opened Graphs
  import opened DepthFirst

  const MAX_AUTHORITIES: nat := 4096

  datatype Identity = Identity(name: Bytes, digest: Digest)

  datatype Captured = Captured(authority: Identity, dependencies: seq<Identity>)

  datatype GraphError = TooMany | DuplicateName | MissingRoot | MissingTarget | DependencyCycle | Unreachable

  type Dependencies = map<Identity, seq<Identity>>

  ghost function DependsOn(graph: Dependencies): (Identity, Identity) -> bool {
    (a, b) => a in graph && b in graph[a]
  }

  predicate Resolved(graph: Dependencies) { forall a :: a in graph ==> forall b :: b in graph[a] ==> b in graph }

  /** The three colours of a depth-first walk: absent, 1 for open and 2 for finished. */
  class Visitor {
    var colors: map<Identity, nat>
    var reachable: set<Identity>
    ghost var order: map<Identity, nat>

    constructor ()
      ensures colors == map[] && reachable == {} && order == map[]
    {
      colors, reachable, order := map[], {}, map[];
    }

    ghost predicate Valid(graph: Dependencies, root: Identity, path: seq<Identity>)
      reads this
    {
      Walking(graph, root, path, colors, reachable, order)
    }

    /** Visits one authority and everything it depends upon.  It fails only when there is a cycle. */
    method Visit(graph: Dependencies, current: Identity, ghost root: Identity, ghost path: seq<Identity>) returns (ok: bool)
      requires Resolved(graph) && current in graph && Valid(graph, root, path) && Next(graph, root, path, current)
      modifies this
      ensures old(reachable) <= reachable <= graph.Keys
      ensures ok ==> Valid(graph, root, path) && current in order && old(order).Keys <= order.Keys
      ensures !ok ==> !Acyclic(DependsOn(graph))
      decreases graph.Keys - reachable, 1, 0
    {
      hide Walking, Next, Acyclic, Resolved;
      WalkingColors(graph, root, path, colors, reachable, order, current);
      if current in colors && colors[current] == 2 {
        return true;
      }
      if current in colors && colors[current] == 1 {
        CycleFound(graph, root, path, current);
        return false;
      }
      OpenNode(graph, root, path, colors, reachable, order, current);
      colors, reachable := colors[current := 1], reachable + {current};
      ok := VisitAll(graph, graph[current], root, path + [current]);
      if !ok {
        return;
      }
      CloseNode(graph, root, path, colors, reachable, order, current);
      colors := colors[current := 2];
      order := order[current := |order|];
    }

    method VisitAll(graph: Dependencies, targets: seq<Identity>, ghost root: Identity, ghost path: seq<Identity>) returns (ok: bool)
      requires Resolved(graph) && path != [] && path[|path| - 1] in graph && targets == graph[path[|path| - 1]]
      requires Valid(graph, root, path) && path[|path| - 1] in reachable
      modifies this
      ensures old(reachable) <= reachable <= graph.Keys
      ensures ok ==> Valid(graph, root, path) && old(order).Keys <= order.Keys && forall t :: t in targets ==> t in order
      ensures !ok ==> !Acyclic(DependsOn(graph))
      decreases graph.Keys - reachable, 2, 0
    {
      hide Walking, Next, Acyclic, Resolved;
      WalkingColors(graph, root, path, colors, reachable, order, path[|path| - 1]);
      for i := 0 to |targets|
        invariant old(reachable) <= reachable <= graph.Keys
        invariant Valid(graph, root, path) && old(order).Keys <= order.Keys
        invariant forall j :: 0 <= j < i ==> targets[j] in order
      {
        NextTarget(graph, root, path, colors, reachable, order, targets[i]);
        ok := Visit(graph, targets[i], root, path);
        if !ok {
          return;
        }
      }
      ok := true;
    }
  }

  /** The open nodes are the current path; the finished ones are closed; all of them are reachable. */
  ghost predicate Walking(graph: Dependencies, root: Identity, path: seq<Identity>, colors: map<Identity, nat>,
                          reachable: set<Identity>, order: map<Identity, nat>)
  {
    && colors.Keys == reachable && reachable <= graph.Keys
    && (forall n :: n in path ==> n in colors && colors[n] == 1)
    && (forall n :: n in order ==> n in colors && colors[n] == 2)
    && (forall n :: n in colors ==> n in path || n in order)
    && IsWalk(DependsOn(graph), path) && Finished(DependsOn(graph), order) && Numbered(order)
    && forall n :: n in reachable ==> Reaches(DependsOn(graph), root, n)
  }

  /** `current` continues the path. */
  ghost predicate Next(graph: Dependencies, root: Identity, path: seq<Identity>, current: Identity) {
    && Reaches(DependsOn(graph), root, current)
    && (path != [] ==> DependsOn(graph)(path[|path| - 1], current))
  }

  lemma WalkingColors(graph: Dependencies, root: Identity, path: seq<Identity>, colors: map<Identity, nat>,
                      reachable: set<Identity>, order: map<Identity, nat>, n: Identity)
    requires Walking(graph, root, path, colors, reachable, order)
    ensures colors.Keys == reachable <= graph.Keys
    ensures n in colors ==> (colors[n] == 1 && n in path) || (colors[n] == 2 && n in order)
    ensures IsWalk(DependsOn(graph), path) && (n in path ==> n in colors)
  {
  }

  lemma OpenNode(graph: Dependencies, root: Identity, path: seq<Identity>, colors: map<Identity, nat>,
                 reachable: set<Identity>, order: map<Identity, nat>, n: Identity)
    requires Walking(graph, root, path, colors, reachable, order) && Next(graph, root, path, n) && n in graph && n !in colors
    ensures Walking(graph, root, path + [n], colors[n := 1], reachable + {n}, order)
  {
    hide Reaches, Finished, Numbered, IsWalk;
    ExtendWalk(DependsOn(graph), path, n);
  }

  lemma CloseNode(graph: Dependencies, root: Identity, path: seq<Identity>, colors: map<Identity, nat>,
                  reachable: set<Identity>, order: map<Identity, nat>, n: Identity)
    requires Walking(graph, root, path + [n], colors, reachable, order) && n !in path
    requires n in graph && forall t :: t in graph[n] ==> t in order
    ensures Walking(graph, root, path, colors[n := 2], reachable, order[n := |order|])
  {
    hide Reaches, Finished, Numbered;
    var longer := path + [n];
    assert longer[|path|] == n && n in longer;
    FinishOne(DependsOn(graph), order, n);
    assert forall i :: 0 <= i < |path| ==> longer[i] == path[i];
    assert forall m :: m in longer ==> m in path || m == n;
  }

  lemma NextTarget(graph: Dependencies, root: Identity, path: seq<Identity>, colors: map<Identity, nat>,
                   reachable: set<Identity>, order: map<Identity, nat>, target: Identity)
    requires Resolved(graph) && Walking(graph, root, path, colors, reachable, order) && path != []
    requires path[|path| - 1] in graph && target in graph[path[|path| - 1]] && path[|path| - 1] in reachable
    ensures target in graph && Next(graph, root, path, target)
  {
    hide Finished, Numbered, IsWalk;
    ReachesNext(DependsOn(graph), root, path[|path| - 1], target);
  }

  lemma CycleFound(graph: Dependencies, root: Identity, path: seq<Identity>, current: Identity)
    requires IsWalk(DependsOn(graph), path) && current in path && Next(graph, root, path, current)
    ensures !Acyclic(DependsOn(graph))
  {
    var cycle := BackEdge(DependsOn(graph), path, current);
  }

  // ----- Building the graph

  ghost predicate DistinctNames(authorities: seq<Captured>) {
    forall i, j :: 0 <= i < j < |authorities| ==> authorities[i].authority.name != authorities[j].authority.name
  }

  /** The dependencies by identity, for authorities with distinct names. */
  ghost predicate Indexes(authorities: seq<Captured>, graph: Dependencies) {
    && (forall i :: 0 <= i < |authorities| ==> authorities[i].authority in graph && graph[authorities[i].authority] == authorities[i].dependencies)
    && (forall a :: a in graph ==> exists i :: 0 <= i < |authorities| && authorities[i].authority == a)
  }

  ghost predicate AllReachable(graph: Dependencies, root: Identity) {
    forall a :: a in graph ==> Reaches(DependsOn(graph), root, a)
  }

  /** What a captured graph must satisfy. */
  ghost predicate Admitted(root: Identity, authorities: seq<Captured>, graph: Dependencies) {
    && |authorities| <= MAX_AUTHORITIES && DistinctNames(authorities) && Indexes(authorities, graph)
    && root in graph && Resolved(graph) && Acyclic(DependsOn(graph)) && AllReachable(graph, root)
  }

  /** Indexes the authorities.  An identity contains its name, so distinct names give distinct identities. */
  method Index(authorities: seq<Captured>) returns (ok: bool, graph: Dependencies)
    ensures ok <==> DistinctNames(authorities)
    ensures ok ==> Indexes(authorities, graph)
  {
    graph := map[];
    var names: set<Bytes> := {};
    for n := 0 to |authorities|
      invariant DistinctNames(authorities[..n]) && Indexes(authorities[..n], graph)
      invariant forall name :: name in names <==> exists i :: 0 <= i < n && authorities[i].authority.name == name
    {
      var a := authorities[n];
      if a.authority.name in names {
        return false, graph;
      }
      AddOne(authorities, n, graph);
      names, graph := names + {a.authority.name}, graph[a.authority := a.dependencies];
    }
    assert authorities[..|authorities|] == authorities;
    ok := true;
  }

  lemma AddOne(authorities: seq<Captured>, n: nat, graph: Dependencies)
    requires n < |authorities| && DistinctNames(authorities[..n]) && Indexes(authorities[..n], graph)
    requires forall i :: 0 <= i < n ==> authorities[i].authority.name != authorities[n].authority.name
    ensures DistinctNames(authorities[..n + 1])
    ensures Indexes(authorities[..n + 1], graph[authorities[n].authority := authorities[n].dependencies])
  {
    var few, many := authorities[..n], authorities[..n + 1];
    assert many == few + [authorities[n]];
    assert forall i :: 0 <= i < n ==> few[i] == authorities[i];
    var more := graph[authorities[n].authority := authorities[n].dependencies];
    forall a | a in more ensures exists i :: 0 <= i < |many| && many[i].authority == a {
      if a == authorities[n].authority {
        assert many[n].authority == a;
      } else {
        var i :| 0 <= i < |few| && few[i].authority == a;
        assert many[i].authority == a;
      }
    }
  }

  /** Accepts exactly the acyclic graphs in which the root reaches everything. */
  method ValidateReachability(graph: Dependencies, root: Identity) returns (r: Result<(), GraphError>)
    requires Resolved(graph) && root in graph
    ensures r.Success? <==> Acyclic(DependsOn(graph)) && AllReachable(graph, root)
    ensures r == Failure(DependencyCycle) ==> !Acyclic(DependsOn(graph))
    ensures r == Failure(Unreachable) ==> !AllReachable(graph, root)
  {
    hide Walking, Resolved;
    var visitor := new Visitor();
    StartWalking(graph, root);
    var ok := visitor.Visit(graph, root, root, []);
    if !ok {
      return Failure(DependencyCycle);
    }
    WalkingDone(graph, root, visitor.colors, visitor.reachable, visitor.order);
    assert AllReachable(graph, root) ==> visitor.reachable == graph.Keys;
    if |visitor.reachable| != |graph.Keys| {
      return Failure(Unreachable);
    }
    SmallerSubset(visitor.reachable, graph.Keys);
    r := Success(());
  }

  lemma StartWalking(graph: Dependencies, root: Identity)
    ensures Walking(graph, root, [], map[], {}, map[]) && Next(graph, root, [], root)
  {
    ReachesItself(DependsOn(graph), root);
  }

  lemma WalkingDone(graph: Dependencies, root: Identity, colors: map<Identity, nat>, reachable: set<Identity>, order: map<Identity, nat>)
    requires Resolved(graph) && Walking(graph, root, [], colors, reachable, order) && root in order
    ensures reachable <= graph.Keys && forall a :: a in graph ==> (a in reachable <==> Reaches(DependsOn(graph), root, a))
    ensures reachable == graph.Keys ==> Acyclic(DependsOn(graph)) && AllReachable(graph, root)
  {
    hide Reaches;
    FinishedReaches(DependsOn(graph), order, root);
    if reachable == graph.Keys {
      forall w ensures !IsCycle(DependsOn(graph), w) {
        if IsCycle(DependsOn(graph), w) {
          assert DependsOn(graph)(w[0], w[0 + 1]);
          NoCycleThrough(DependsOn(graph), order, w);
        }
      }
    }
  }

  /** The whole constructor: accepts exactly the admitted graphs. */
  method BuildGraph(root: Identity, authorities: seq<Captured>) returns (r: Result<Dependencies, GraphError>)
    ensures r.Success? ==> Admitted(root, authorities, r.value)
    ensures r.Failure? ==> forall graph :: !Admitted(root, authorities, graph)
  {
    hide Acyclic, AllReachable, Resolved, DistinctNames;
    if |authorities| > MAX_AUTHORITIES {
      return Failure(TooMany);
    }
    var ok, graph := Index(authorities);
    if !ok {
      return Failure(DuplicateName);
    }
    forall other | Indexes(authorities, other) ensures other == graph {
      OneIndex(authorities, graph, other);
    }
    if root !in graph {
      return Failure(MissingRoot);
    }
    if !Resolved(graph) {
      return Failure(MissingTarget);
    }
    var valid := ValidateReachability(graph, root);
    if valid.Failure? {
      return Failure(valid.error);
    }
    r := Success(graph);
  }

  lemma OneIndex(authorities: seq<Captured>, a: Dependencies, b: Dependencies)
    requires Indexes(authorities, a) && Indexes(authorities, b)
    ensures a == b
  {
    assert a.Keys == b.Keys;
    forall n | n in a ensures a[n] == b[n] {
      var i :| 0 <= i < |authorities| && authorities[i].authority == n;
    }
  }
}
