/** The symbolic-link check of a canonical tree.

    A link may name a path that runs through other links.  `ValidateSymlinkGraph` is the Kahn-style
    check of the source, which only looks at links that are textual prefixes of a target.  The main
    results say that this is exactly enough: the check accepts if and only if following links from
    any path of the tree comes to an end, although resolution also meets links that are not a prefix
    of any target. */
module SymlinkGraph {
  import opened Base
  import opened Text
  import opened Graphs

  const MAX_DEPTH: nat := 64
  const MAX_PATH_BYTES: nat := 4096

  datatype Issue = Missing | TooLarge | DigestMismatch | InvalidEncoding

  /** The path, from the tree root, that a link at `path` points at. */
  function SafeTarget(path: Path, target: Bytes): (r: Option<Path>)
    requires path != []
    ensures r.Some? ==> |r.value| >= |path| && r.value[..|path| - 1] == path[..|path| - 1]
  {
    var segments := Split(target);
    var resolved := path[..|path| - 1] + segments;
    if BACKSLASH in target || !(forall s :: s in segments ==> ValidSegment(s)) then None
    else if |resolved| > MAX_DEPTH || |Join(resolved)| > MAX_PATH_BYTES then None
    else Some(resolved)
  }

  /** Every link of the tree has a stored, safe target. */
  ghost predicate TargetsSafe(links: map<Path, Digest>, symlinks: map<Digest, Bytes>)
    requires [] !in links
  {
    forall p :: p in links ==> links[p] in symlinks && SafeTarget(p, symlinks[links[p]]).Some?
  }

  ghost function TargetsOf(links: map<Path, Digest>, symlinks: map<Digest, Bytes>): (targets: map<Path, Path>)
    requires [] !in links && TargetsSafe(links, symlinks)
    ensures targets.Keys == links.Keys && WellPlaced(targets)
  {
    map p | p in links :: SafeTarget(p, symlinks[links[p]]).value
  }

  /** A target lies below the directory that holds its link: targets never climb. */
  ghost predicate WellPlaced(targets: map<Path, Path>) {
    forall p :: p in targets ==>
      p != [] && |targets[p]| >= |p| && targets[p][..|p| - 1] == p[..|p| - 1]
  }

  /** No link sits below another link, as in every tree. */
  ghost predicate PrefixFree(targets: map<Path, Path>) {
    forall p, q :: p in targets && q in targets && IsPrefix(p, q) ==> p == q
  }

  /** Link `p` depends on link `q` when `q` is a prefix of the target of `p`. */
  ghost function LinkEdge(targets: map<Path, Path>): (Path, Path) -> bool {
    (p, q) => p in targets && q in targets && q != [] && IsPrefix(q, targets[p])
  }

  // ----- Following links

  /** A lookup in progress: the link-free directory reached so far and the components still to read. */
  datatype Lookup = Lookup(at: Path, pending: Path)

  function Advance(targets: map<Path, Path>, s: Lookup): Lookup
    requires WellPlaced(targets) && s.pending != []
  {
    var next := s.at + [s.pending[0]];
    if next in targets then Lookup(s.at, targets[next][|s.at|..] + s.pending[1..])
    else Lookup(next, s.pending[1..])
  }

  function Run(targets: map<Path, Path>, s: Lookup, steps: nat): Lookup
    requires WellPlaced(targets)
    decreases steps
  {
    if steps == 0 || s.pending == [] then s else Run(targets, Advance(targets, s), steps - 1)
  }

  ghost predicate Terminates(targets: map<Path, Path>, s: Lookup)
    requires WellPlaced(targets)
  {
    exists steps: nat :: Run(targets, s, steps).pending == []
  }

  ghost predicate EveryLookupTerminates(targets: map<Path, Path>)
    requires WellPlaced(targets)
  {
    forall s: Lookup :: Terminates(targets, s)
  }

  lemma {:induction false} RunCompose(targets: map<Path, Path>, s: Lookup, m: nat, n: nat)
    requires WellPlaced(targets)
    ensures Run(targets, s, m + n) == Run(targets, Run(targets, s, m), n)
    decreases m
  {
    if m != 0 && s.pending != [] {
      RunCompose(targets, Advance(targets, s), m - 1, n);
    }
  }

  /** Data of the termination argument: no link is longer than `depth`, and `rank` falls along edges. */
  ghost predicate Measured(targets: map<Path, Path>, rank: map<Path, nat>, depth: nat) {
    && WellPlaced(targets)
    && rank.Keys == targets.Keys
    && (forall p :: p in targets ==> |p| <= depth)
    && (forall p, q :: LinkEdge(targets)(p, q) ==> rank[q] < rank[p])
  }

  ghost function Height(rank: map<Path, nat>, p: Path): nat {
    if p in rank then rank[p] + 1 else 0
  }

  ghost function Room(depth: nat, at: Path): nat {
    if |at| < depth then depth - |at| else 0
  }

  /** Reading one component ends, strictly deeper than it began, with the rest untouched. */
  lemma {:induction false} ReadOne(targets: map<Path, Path>, rank: map<Path, nat>, depth: nat, at: Path, c: Segment, rest: Path)
    returns (steps: nat, to: Path)
    requires Measured(targets, rank, depth)
    ensures |to| > |at|
    ensures Run(targets, Lookup(at, [c] + rest), steps) == Lookup(to, rest)
    decreases Room(depth, at), Height(rank, at + [c]), 0
  {
    hide WellPlaced, LinkEdge, Advance;
    var link := at + [c];
    if link in targets {
      ThroughLink(targets, rank, depth, at, c, rest);
      var inner := targets[link][|at|..];
      var n;
      n, to := ReadAll(targets, rank, depth, at, inner, rest);
      steps := n + 1;
    } else {
      steps, to := 1, link;
      PastName(targets, at, c, rest);
      assert Run(targets, Lookup(link, rest), 0) == Lookup(link, rest);
    }
  }

  /** Following a link leads to what it depends upon, which ranks lower, or to no link. */
  lemma ThroughLink(targets: map<Path, Path>, rank: map<Path, nat>, depth: nat, at: Path, c: Segment, rest: Path)
    requires Measured(targets, rank, depth) && at + [c] in targets
    ensures |at| < |targets[at + [c]]|
    ensures var inner := targets[at + [c]][|at|..];
      && Advance(targets, Lookup(at, [c] + rest)) == Lookup(at, inner + rest)
      && Height(rank, at + [inner[0]]) < Height(rank, at + [c]) && Room(depth, at) > 0
  {
    var link := at + [c];
    assert link[..|link| - 1] == at && ([c] + rest)[1..] == rest;
    var inner := targets[link][|at|..];
    assert targets[link] == at + inner;
    assert at + [inner[0]] in targets ==> LinkEdge(targets)(link, at + [inner[0]]);
  }

  lemma PastName(targets: map<Path, Path>, at: Path, c: Segment, rest: Path)
    requires WellPlaced(targets) && at + [c] !in targets
    ensures Advance(targets, Lookup(at, [c] + rest)) == Lookup(at + [c], rest)
  {
    assert ([c] + rest)[1..] == rest;
  }

  lemma {:induction false} ReadAll(targets: map<Path, Path>, rank: map<Path, nat>, depth: nat, at: Path, names: Path, rest: Path)
    returns (steps: nat, to: Path)
    requires Measured(targets, rank, depth)
    requires names != []
    ensures |to| > |at|
    ensures Run(targets, Lookup(at, names + rest), steps) == Lookup(to, rest)
    decreases Room(depth, at), Height(rank, at + [names[0]]), |names|
  {
    var tail := names[1..];
    assert names + rest == [names[0]] + (tail + rest);
    steps, to := ReadOne(targets, rank, depth, at, names[0], tail + rest);
    if tail != [] {
      var more, end := ReadAll(targets, rank, depth, to, tail, rest);
      RunCompose(targets, Lookup(at, names + rest), steps, more);
      steps, to := steps + more, end;
    } else {
      assert tail + rest == rest;
    }
  }

  lemma LongestLink(targets: map<Path, Path>) returns (depth: nat)
    ensures forall p :: p in targets ==> |p| <= depth
    decreases |targets|
  {
    if targets == map[] {
      depth := 0;
    } else {
      var p :| p in targets;
      var rest := targets - {p};
      assert targets.Keys == rest.Keys + {p};
      depth := LongestLink(rest);
      assert forall q :: q in targets ==> q == p || q in rest;
      depth := if depth < |p| then |p| else depth;
    }
  }

  /** An acyclic prefix graph makes every lookup end, whichever links it meets on the way. */
  lemma AcyclicTerminates(targets: map<Path, Path>)
    requires WellPlaced(targets) && Acyclic(LinkEdge(targets))
    ensures EveryLookupTerminates(targets)
  {
    var up := AcyclicHasRank(LinkEdge(targets), targets.Keys);
    var top := |targets.Keys|;
    var rank := map p | p in targets :: (top - up[p]) as nat;
    var depth := LongestLink(targets);
    forall s: Lookup ensures Terminates(targets, s) {
      if s.pending == [] {
        assert Run(targets, s, 0).pending == [];
      } else {
        var steps, to := ReadAll(targets, rank, depth, s.at, s.pending, []);
        assert s.pending + [] == s.pending;
        assert Run(targets, s, steps).pending == [];
      }
    }
  }

  /** A lookup that still has to read the whole of `link`. */
  ghost predicate Facing(s: Lookup, link: Path) {
    |s.at| < |link| <= |s.at| + |s.pending| && s.at + s.pending[..|link| - |s.at|] == link
  }

  ghost predicate Captured(loop: set<Path>, s: Lookup) {
    exists link :: link in loop && Facing(s, link)
  }

  ghost predicate HasSuccessor(targets: map<Path, Path>, loop: set<Path>, p: Path) {
    exists q :: q in loop && LinkEdge(targets)(p, q)
  }

  ghost predicate SelfSustaining(targets: map<Path, Path>, loop: set<Path>) {
    loop <= targets.Keys && forall p {:trigger HasSuccessor(targets, loop, p)} :: p in loop ==> HasSuccessor(targets, loop, p)
  }

  lemma CapturedStays(targets: map<Path, Path>, loop: set<Path>, s: Lookup)
    requires WellPlaced(targets) && PrefixFree(targets) && SelfSustaining(targets, loop)
    requires Captured(loop, s)
    ensures s.pending != [] && Captured(loop, Advance(targets, s))
  {
    var link :| link in loop && Facing(s, link);
    if |s.at| + 1 == |link| {
      assert link == s.at + [s.pending[0]];
      assert HasSuccessor(targets, loop, link);
      var further :| further in loop && LinkEdge(targets)(link, further);
      FollowLink(targets, s, link, further);
    } else {
      PassDirectory(targets, s, link);
    }
  }

  lemma PassDirectory(targets: map<Path, Path>, s: Lookup, link: Path)
    requires WellPlaced(targets) && PrefixFree(targets)
    requires link in targets && Facing(s, link) && |s.at| + 1 < |link|
    ensures Facing(Advance(targets, s), link)
  {
    var next := s.at + [s.pending[0]];
    var t := Lookup(next, s.pending[1..]);
    assert link[..|next|] == next;
    assert IsPrefix(next, link);
    assert next !in targets;
    assert t.at + t.pending[..|link| - |t.at|] == s.at + s.pending[..|link| - |s.at|];
  }

  lemma FollowLink(targets: map<Path, Path>, s: Lookup, link: Path, further: Path)
    requires WellPlaced(targets) && PrefixFree(targets)
    requires s.pending != [] && link == s.at + [s.pending[0]]
    requires LinkEdge(targets)(link, further)
    ensures Facing(Advance(targets, s), further)
  {
    var t := Advance(targets, s);
    var inner := targets[link][|s.at|..];
    assert link[..|link| - 1] == s.at;
    assert targets[link] == s.at + inner;
    if |further| <= |s.at| {
      assert link[..|further|] == further;
      assert IsPrefix(further, link);
      assert false;
    }
    assert t.at + t.pending[..|further| - |t.at|] == (s.at + inner)[..|further|];
  }

  lemma {:induction false} CapturedForever(targets: map<Path, Path>, loop: set<Path>, s: Lookup, steps: nat)
    requires WellPlaced(targets) && PrefixFree(targets) && SelfSustaining(targets, loop)
    requires Captured(loop, s)
    ensures Run(targets, s, steps).pending != []
    decreases steps
  {
    CapturedStays(targets, loop, s);
    if steps != 0 {
      CapturedForever(targets, loop, Advance(targets, s), steps - 1);
    }
  }

  lemma CycleMember(targets: map<Path, Path>, cycle: seq<Path>, loop: set<Path>, p: Path)
    requires IsCycle(LinkEdge(targets), cycle) && p in loop && loop == set i | 0 <= i < |cycle| - 1 :: cycle[i]
    ensures HasSuccessor(targets, loop, p)
  {
    var i :| 0 <= i < |cycle| - 1 && cycle[i] == p;
    assert LinkEdge(targets)(cycle[i], cycle[i + 1]);
    if i + 1 == |cycle| - 1 {
      assert cycle[i + 1] == cycle[0];
    }
    assert cycle[i + 1] in loop;
  }

  /** A cycle of the prefix graph is a lookup that never ends. */
  lemma CycleDiverges(targets: map<Path, Path>, cycle: seq<Path>)
    requires WellPlaced(targets) && PrefixFree(targets)
    requires IsCycle(LinkEdge(targets), cycle)
    ensures !Terminates(targets, Lookup([], cycle[0]))
  {
    var loop := set i | 0 <= i < |cycle| - 1 :: cycle[i];
    forall p | p in loop ensures HasSuccessor(targets, loop, p) {
      CycleMember(targets, cycle, loop, p);
    }
    var s := Lookup([], cycle[0]);
    assert LinkEdge(targets)(cycle[0], cycle[0 + 1]);
    assert cycle[0] in loop && s.at + s.pending[..|cycle[0]|] == cycle[0];
    assert Facing(s, cycle[0]);
    forall steps: nat ensures Run(targets, s, steps).pending != [] {
      CapturedForever(targets, loop, s, steps);
    }
  }

  /** Looking only at textual prefixes is exactly enough. */
  lemma PrefixGraphDecidesTermination(targets: map<Path, Path>)
    requires WellPlaced(targets) && PrefixFree(targets)
    ensures Acyclic(LinkEdge(targets)) <==> EveryLookupTerminates(targets)
  {
    if Acyclic(LinkEdge(targets)) {
      AcyclicTerminates(targets);
    } else {
      var cycle :| IsCycle(LinkEdge(targets), cycle);
      CycleDiverges(targets, cycle);
      assert !Terminates(targets, Lookup([], cycle[0]));
    }
  }
}
