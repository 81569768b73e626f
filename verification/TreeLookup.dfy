/** The meaning of accepting a tree: every path of it can be followed to its end. */
module TreeLookup {
  import opened Base
  import opened Text
  import opened Graphs
  import opened Canonical
  import opened SymlinkGraph
  import opened TreeGraph
  import opened TreeListing
  import TreeWalk

  /** A link is a leaf of the tree: nothing else is found at it or below it. */
  lemma {:induction false} LinkIsLeaf(trees: Trees, entries: seq<TreeEntry>, prefix: Path, depth: nat, v: Visit, w: Visit)
    requires depth <= MAX_DEPTH && |prefix| == depth && WellNamedTrees(trees) && StrictlySorted(NamesIn(entries))
    requires v in Unfold(trees, entries, prefix, depth) && w in Unfold(trees, entries, prefix, depth)
    requires v.entry.kind.Symlink? && IsPrefix(v.path, w.path)
    ensures w.path == v.path
    decreases MAX_DEPTH - depth
  {
    hide StrictlySorted, NamesIn;
    var i := UnfoldSource(trees, entries, prefix, depth, v);
    var j := UnfoldSource(trees, entries, prefix, depth, w);
    HeadSegment(trees, entries[i], prefix, depth, v);
    HeadSegment(trees, entries[j], prefix, depth, w);
    assert w.path[depth] == w.path[..|v.path|][depth];
    SameNameSameEntry(entries, i, j);
    var e := entries[i];
    var path := prefix + [e.name];
    if v in Below(trees, e, path, depth) {
      assert WellNamed(trees[e.kind.digest]);
      if w in Below(trees, e, path, depth) {
        LinkIsLeaf(trees, trees[e.kind.digest].entries, path, depth + 1, v, w);
      } else {
        UnfoldDeeper(trees, trees[e.kind.digest].entries, path, depth + 1, v);
      }
    }
  }

  lemma SameNameSameEntry(entries: seq<TreeEntry>, i: nat, j: nat)
    requires i < |entries| && j < |entries| && entries[i].name == entries[j].name
    requires StrictlySorted(NamesIn(entries))
    ensures i == j
  {
    var names := NamesIn(entries);
    SortedDistinct(names);
    assert names[i] == names[j];
  }

  lemma TreeLinksPrefixFree(objects: CanonicalObjects, root: Digest, links: map<Path, Digest>)
    requires WellNamedTrees(objects.trees) && links == LinksOf(UnfoldTree(objects.trees, root, [], 0))
    ensures forall p, q :: p in links && q in links && IsPrefix(p, q) ==> p == q
  {
    var u := UnfoldTree(objects.trees, root, [], 0);
    forall p, q | p in links && q in links && IsPrefix(p, q) ensures p == q {
      LinksOfMember(u, p);
      LinksOfMember(u, q);
      var v :| v in u && v.path == p && v.entry.kind == Symlink(links[p]);
      var w :| w in u && w.path == q && w.entry.kind == Symlink(links[q]);
      assert WellNamed(objects.trees[root]);
      LinkIsLeaf(objects.trees, objects.trees[root].entries, [], 0, v, w);
    }
  }

  /** Every link points at a stored, safe target and following links from any path comes to an end. */
  ghost predicate Followable(objects: CanonicalObjects, root: Digest) {
    var links := LinksOf(UnfoldTree(objects.trees, root, [], 0));
    [] !in links && TargetsSafe(links, objects.symlinks) && EveryLookupTerminates(TargetsOf(links, objects.symlinks))
  }

  /** A graph within the limits is accepted exactly when every path in it can be followed. */
  lemma AcceptedIffFollowable(objects: CanonicalObjects, root: Digest)
    requires WellNamedTrees(objects.trees)
    ensures ValidTree(objects, root) <==> GraphOk(objects, root) && Followable(objects, root)
  {
    var links := LinksOf(UnfoldTree(objects.trees, root, [], 0));
    TreeWalk.LinksHavePaths(objects.trees, root);
    if TargetsSafe(links, objects.symlinks) {
      TreeLinksPrefixFree(objects, root, links);
      PrefixGraphDecidesTermination(TargetsOf(links, objects.symlinks));
    }
  }
}
