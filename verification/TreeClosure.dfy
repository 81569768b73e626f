/** The objects below a set of roots, and the fact that whether a tree is accepted depends on those
    objects only. */
module TreeClosure {
  import opened Base
  import opened Text
  import opened Graphs
  import opened Canonical
  import opened SymlinkGraph
  import opened TreeGraph

  /** Everything that some path below the roots refers to, and the roots themselves. */
  ghost function ClosureOf(trees: Trees, roots: Marks): Marks {
    Marks(
      roots.files + (set r, v | r in roots.trees && v in UnfoldTree(trees, r, [], 0) && v.entry.kind.File? :: v.entry.kind.digest),
      roots.symlinks + (set r, v | r in roots.trees && v in UnfoldTree(trees, r, [], 0) && v.entry.kind.Symlink? :: v.entry.kind.digest),
      roots.trees + (set r, v | r in roots.trees && v in UnfoldTree(trees, r, [], 0) && v.entry.kind.Directory? :: v.entry.kind.digest))
  }

  ghost predicate EntriesMarked(entries: seq<TreeEntry>, x: Marks) {
    forall i :: 0 <= i < |entries| ==> Marked(x, entries[i].kind)
  }

  lemma {:induction false} UnfoldMarked(trees: Trees, entries: seq<TreeEntry>, prefix: Path, depth: nat, x: Marks)
    requires depth <= MAX_DEPTH && EntriesMarked(entries, x) && ClosedUnderChildren(trees, x)
    ensures forall v :: v in Unfold(trees, entries, prefix, depth) ==> Marked(x, v.entry.kind)
    decreases MAX_DEPTH - depth, |entries|
  {
    if entries != [] {
      var e := entries[0];
      assert Marked(x, entries[0].kind);
      if depth < MAX_DEPTH && e.kind.Directory? && e.kind.digest in trees {
        UnfoldMarked(trees, trees[e.kind.digest].entries, prefix + [e.name], depth + 1, x);
      }
      UnfoldMarked(trees, entries[1..], prefix, depth, x);
    }
  }

  ghost predicate Shallow(visits: seq<Visit>) {
    forall v :: v in visits ==> |v.path| <= MAX_DEPTH
  }

  lemma ClosureContains(trees: Trees, roots: Marks, root: Digest, v: Visit)
    requires root in roots.trees && v in UnfoldTree(trees, root, [], 0)
    ensures Marked(ClosureOf(trees, roots), v.entry.kind)
  {
  }

  lemma ClosureClosed(trees: Trees, roots: Marks)
    requires forall r :: r in roots.trees ==> Shallow(UnfoldTree(trees, r, [], 0))
    ensures ClosedUnderChildren(trees, ClosureOf(trees, roots))
  {
    var x := ClosureOf(trees, roots);
    forall t, i | t in x.trees && t in trees && 0 <= i < |trees[t].entries|
      ensures Marked(x, trees[t].entries[i].kind)
    {
      var e := trees[t].entries[i];
      if t in roots.trees {
        UnfoldEntry(trees, trees[t].entries, [], 0, i);
        ClosureContains(trees, roots, t, Visit([] + [e.name], e));
      } else {
        var r, v :| r in roots.trees && v in UnfoldTree(trees, r, [], 0) && v.entry.kind == Directory(t);
        var w := Visit(v.path + [e.name], e);
        UnfoldEntry(trees, trees[t].entries, v.path, |v.path|, i);
        UnfoldNested(trees, trees[r].entries, [], 0, v, w);
        ClosureContains(trees, roots, r, w);
      }
    }
  }

  /** The unfolding reaches exactly the least closed set above the roots. */
  lemma ClosureIsLeast(trees: Trees, roots: Marks)
    requires forall r :: r in roots.trees ==> Shallow(UnfoldTree(trees, r, [], 0))
    ensures LeastClosed(trees, roots, ClosureOf(trees, roots))
  {
    ClosureClosed(trees, roots);
    forall y | MarksWithin(roots, y) && ClosedUnderChildren(trees, y)
      ensures MarksWithin(ClosureOf(trees, roots), y)
    {
      forall r, v | r in roots.trees && v in UnfoldTree(trees, r, [], 0) ensures Marked(y, v.entry.kind) {
        UnfoldMarked(trees, trees[r].entries, [], 0, y);
      }
    }
  }

  // ----- Acceptance is local to the closure

  ghost predicate AgreeOn(a: CanonicalObjects, b: CanonicalObjects, x: Marks) {
    && (forall d :: d in x.files ==> (d in a.files <==> d in b.files) && (d in a.files ==> a.files[d] == b.files[d]))
    && (forall d :: d in x.symlinks ==> (d in a.symlinks <==> d in b.symlinks) && (d in a.symlinks ==> a.symlinks[d] == b.symlinks[d]))
    && (forall d :: d in x.trees ==> (d in a.trees <==> d in b.trees) && (d in a.trees ==> a.trees[d] == b.trees[d]))
  }

  lemma {:induction false} UnfoldLocal(a: Trees, b: Trees, entries: seq<TreeEntry>, prefix: Path, depth: nat, x: Marks)
    requires depth <= MAX_DEPTH && EntriesMarked(entries, x) && ClosedUnderChildren(a, x)
    requires forall d :: d in x.trees ==> (d in a <==> d in b) && (d in a ==> a[d] == b[d])
    ensures Unfold(a, entries, prefix, depth) == Unfold(b, entries, prefix, depth)
    decreases MAX_DEPTH - depth, |entries|
  {
    if entries != [] {
      var e := entries[0];
      assert Marked(x, entries[0].kind);
      if depth < MAX_DEPTH && e.kind.Directory? && e.kind.digest in a {
        UnfoldLocal(a, b, a[e.kind.digest].entries, prefix + [e.name], depth + 1, x);
      }
      UnfoldLocal(a, b, entries[1..], prefix, depth, x);
    }
  }

  lemma UnfoldTreeLocal(a: CanonicalObjects, b: CanonicalObjects, x: Marks, root: Digest)
    requires AgreeOn(a, b, x) && ClosedUnderChildren(a.trees, x) && root in x.trees
    ensures UnfoldTree(a.trees, root, [], 0) == UnfoldTree(b.trees, root, [], 0)
    ensures forall v :: v in UnfoldTree(a.trees, root, [], 0) ==> Marked(x, v.entry.kind)
  {
    if root in a.trees {
      UnfoldLocal(a.trees, b.trees, a.trees[root].entries, [], 0, x);
      UnfoldMarked(a.trees, a.trees[root].entries, [], 0, x);
    }
  }

  lemma GraphOkLocal(a: CanonicalObjects, b: CanonicalObjects, x: Marks, root: Digest)
    requires AgreeOn(a, b, x) && ClosedUnderChildren(a.trees, x) && root in x.trees
    ensures GraphOk(a, root) <==> GraphOk(b, root)
  {
    UnfoldTreeLocal(a, b, x, root);
    forall v | v in UnfoldTree(a.trees, root, [], 0) ensures VisitOk(a, v) <==> VisitOk(b, v) {
      assert Marked(x, v.entry.kind);
    }
  }

  /** Two stores that agree below a root accept it or reject it together. */
  lemma ValidTreeLocal(a: CanonicalObjects, b: CanonicalObjects, x: Marks, root: Digest)
    requires AgreeOn(a, b, x) && ClosedUnderChildren(a.trees, x) && root in x.trees
    ensures ValidTree(a, root) <==> ValidTree(b, root)
  {
    hide UnfoldTree, GraphOk, LinksOf, Acyclic, LinkEdge, TargetsSafe, ClosedUnderChildren, AgreeOn;
    UnfoldTreeLocal(a, b, x, root);
    GraphOkLocal(a, b, x, root);
    var visits := UnfoldTree(a.trees, root, [], 0);
    var links := LinksOf(visits);
    forall p | p in links
      ensures links[p] in x.symlinks
    {
      LinksOfMember(visits, p);
    }
    if [] !in links {
      TargetsLocal(a, b, x, links);
    }
  }

  lemma TargetsLocal(a: CanonicalObjects, b: CanonicalObjects, x: Marks, links: map<Path, Digest>)
    requires AgreeOn(a, b, x) && [] !in links && forall p :: p in links ==> links[p] in x.symlinks
    ensures TargetsSafe(links, a.symlinks) <==> TargetsSafe(links, b.symlinks)
    ensures TargetsSafe(links, a.symlinks) ==> TargetsOf(links, a.symlinks) == TargetsOf(links, b.symlinks)
  {
    hide SafeTarget;
  }
}
