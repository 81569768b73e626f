/** What a directory tree unfolds to, and when the whole graph below a root is acceptable.

    The walk, the loader and the inspection of the source visit the same tree in three different
    ways.  They are all related to `Unfold`, the list of every path below a root in depth-first
    order, cut one level past the depth limit. */
module TreeGraph {
  import opened Base
  import opened Text
  import opened Graphs
  import opened Canonical
  import opened SymlinkGraph

  type Trees = map<Digest, TreeObject>

  datatype Visit = Visit(path: Path, entry: TreeEntry)

  function Unfold(trees: Trees, entries: seq<TreeEntry>, prefix: Path, depth: nat): seq<Visit>
    requires depth <= MAX_DEPTH
    decreases MAX_DEPTH - depth, |entries|
  {
    if entries == [] then []
    else
      [Visit(prefix + [entries[0].name], entries[0])]
      + Below(trees, entries[0], prefix + [entries[0].name], depth)
      + Unfold(trees, entries[1..], prefix, depth)
  }

  /** The part of the unfolding under one entry of a tree at `depth`. */
  function Below(trees: Trees, e: TreeEntry, path: Path, depth: nat): seq<Visit>
    requires depth <= MAX_DEPTH
    decreases MAX_DEPTH - depth, 0
  {
    if depth < MAX_DEPTH && e.kind.Directory? && e.kind.digest in trees
    then Unfold(trees, trees[e.kind.digest].entries, path, depth + 1)
    else []
  }

  function UnfoldTree(trees: Trees, root: Digest, prefix: Path, depth: nat): seq<Visit>
    requires depth <= MAX_DEPTH
  {
    if root in trees then Unfold(trees, trees[root].entries, prefix, depth) else []
  }

  // ----- What is asked of each path and of all paths together

  ghost predicate VisitOk(objects: CanonicalObjects, v: Visit) {
    && |v.path| <= MAX_DEPTH && |Join(v.path)| <= MAX_PATH_BYTES
    && match v.entry.kind
       case File(digest, byteLen) => digest in objects.files && |objects.files[digest]| == byteLen
       case Directory(digest) => digest in objects.trees && objects.trees[digest].rootMode == v.entry.mode
       case Symlink(digest) => digest in objects.symlinks
  }

  ghost function FileWeight(v: Visit): nat { if v.entry.kind.File? then v.entry.kind.byteLen else 0 }

  ghost function DirectoryWeight(v: Visit): nat { if v.entry.kind.Directory? then 1 else 0 }

  ghost function FileBytes(visits: seq<Visit>): nat { Weigh(visits, FileWeight) }

  function LinksOf(visits: seq<Visit>): map<Path, Digest> {
    if visits == [] then map[]
    else
      var v := visits[|visits| - 1];
      var rest := LinksOf(visits[..|visits| - 1]);
      if v.entry.kind.Symlink? then rest[v.path := v.entry.kind.digest] else rest
  }

  ghost predicate AllOk(objects: CanonicalObjects, visits: seq<Visit>) {
    && (forall v :: v in visits ==> VisitOk(objects, v))
    && |visits| <= MAX_ENTRIES
    && FileBytes(visits) <= MAX_FILE_BYTES
  }

  ghost predicate GraphOk(objects: CanonicalObjects, root: Digest) {
    root in objects.trees && AllOk(objects, UnfoldTree(objects.trees, root, [], 0))
  }

  /** `validate_graph` of the source accepts the tree below `root`. */
  ghost predicate ValidTree(objects: CanonicalObjects, root: Digest) {
    && GraphOk(objects, root)
    && var links := LinksOf(UnfoldTree(objects.trees, root, [], 0));
       [] !in links && TargetsSafe(links, objects.symlinks) && Acyclic(LinkEdge(TargetsOf(links, objects.symlinks)))
  }

  // ----- Lists of visits

  lemma FileBytesAppend(a: seq<Visit>, b: seq<Visit>)
    ensures FileBytes(a + b) == FileBytes(a) + FileBytes(b)
    ensures forall v :: b == [v] ==> FileBytes(b) == FileWeight(v)
  {
    WeighAppend(a, b, FileWeight);
  }

  lemma AllOkPrefix(objects: CanonicalObjects, a: seq<Visit>, b: seq<Visit>)
    requires AllOk(objects, a + b)
    ensures AllOk(objects, a) && AllOk(objects, b)
  {
    FileBytesAppend(a, b);
    forall v | v in a || v in b ensures VisitOk(objects, v) {
      assert v in a + b;
    }
  }

  lemma {:induction false} LinksOfMember(visits: seq<Visit>, path: Path)
    ensures path in LinksOf(visits) ==>
              exists v :: v in visits && v.path == path && v.entry.kind == Symlink(LinksOf(visits)[path])
  {
    if visits != [] {
      var init, last := visits[..|visits| - 1], visits[|visits| - 1];
      LinksOfMember(init, path);
      assert visits == init + [last];
    }
  }

  lemma {:induction false} LinksOfComplete(visits: seq<Visit>, v: Visit)
    requires v in visits && v.entry.kind.Symlink?
    ensures v.path in LinksOf(visits)
  {
    var init, last := visits[..|visits| - 1], visits[|visits| - 1];
    assert visits == init + [last];
    if v in init {
      LinksOfComplete(init, v);
    }
  }

  // ----- The unfolding contains the unfolding of every directory in it

  lemma {:induction false} UnfoldAppend(trees: Trees, a: seq<TreeEntry>, b: seq<TreeEntry>, prefix: Path, depth: nat)
    requires depth <= MAX_DEPTH
    ensures Unfold(trees, a + b, prefix, depth) == Unfold(trees, a, prefix, depth) + Unfold(trees, b, prefix, depth)
    decreases |a|
  {
    if a == [] {
      assert a + b == b;
    } else {
      assert (a + b)[1..] == a[1..] + b;
      UnfoldAppend(trees, a[1..], b, prefix, depth);
    }
  }

  /** Entry `i` and everything below it are part of the unfolding. */
  lemma UnfoldEntry(trees: Trees, entries: seq<TreeEntry>, prefix: Path, depth: nat, i: nat)
    requires depth <= MAX_DEPTH && i < |entries|
    ensures Visit(prefix + [entries[i].name], entries[i]) in Unfold(trees, entries, prefix, depth)
    ensures forall v :: v in Below(trees, entries[i], prefix + [entries[i].name], depth) ==> v in Unfold(trees, entries, prefix, depth)
  {
    assert entries == entries[..i] + entries[i..];
    UnfoldAppend(trees, entries[..i], entries[i..], prefix, depth);
  }

  /** Every visit is one of the entries or lies below one of them. */
  lemma {:induction false} UnfoldSource(trees: Trees, entries: seq<TreeEntry>, prefix: Path, depth: nat, v: Visit)
    returns (i: nat)
    requires depth <= MAX_DEPTH && v in Unfold(trees, entries, prefix, depth)
    ensures i < |entries|
    ensures v == Visit(prefix + [entries[i].name], entries[i]) || v in Below(trees, entries[i], prefix + [entries[i].name], depth)
    decreases |entries|
  {
    var head := prefix + [entries[0].name];
    if v == Visit(head, entries[0]) || v in Below(trees, entries[0], head, depth) {
      i := 0;
    } else {
      i := UnfoldSource(trees, entries[1..], prefix, depth, v);
      i := i + 1;
    }
  }

  lemma {:induction false} UnfoldDeeper(trees: Trees, entries: seq<TreeEntry>, prefix: Path, depth: nat, v: Visit)
    requires depth <= MAX_DEPTH && |prefix| == depth && v in Unfold(trees, entries, prefix, depth)
    ensures |v.path| > depth && IsPrefix(prefix, v.path) && v.path[|v.path| - 1] == v.entry.name
    decreases MAX_DEPTH - depth
  {
    var i := UnfoldSource(trees, entries, prefix, depth, v);
    var e := entries[i];
    if v in Below(trees, e, prefix + [e.name], depth) {
      UnfoldDeeper(trees, trees[e.kind.digest].entries, prefix + [e.name], depth + 1, v);
      assert v.path[..depth] == v.path[..depth + 1][..depth];
    }
  }

  /** Below a directory that was visited, its own unfolding is visited too. */
  lemma {:induction false} UnfoldNested(trees: Trees, entries: seq<TreeEntry>, prefix: Path, depth: nat, v: Visit, w: Visit)
    requires depth <= MAX_DEPTH && |prefix| == depth
    requires v in Unfold(trees, entries, prefix, depth) && v.entry.kind.Directory? && |v.path| <= MAX_DEPTH
    requires w in UnfoldTree(trees, v.entry.kind.digest, v.path, |v.path|)
    ensures w in Unfold(trees, entries, prefix, depth)
    decreases MAX_DEPTH - depth
  {
    var i := UnfoldSource(trees, entries, prefix, depth, v);
    var e := entries[i];
    var path := prefix + [e.name];
    UnfoldDeeper(trees, entries, prefix, depth, v);
    UnfoldEntry(trees, entries, prefix, depth, i);
    if v != Visit(path, e) {
      UnfoldNested(trees, trees[e.kind.digest].entries, path, depth + 1, v, w);
    }
  }

  // ----- Depth: a cycle cannot hide from the depth limit

  /** Tree `a` lists tree `b` as a directory. */
  ghost function ChildEdge(trees: Trees): (Digest, Digest) -> bool {
    (a, b) => a in trees && exists i :: 0 <= i < |trees[a].entries| && trees[a].entries[i].kind == Directory(b)
  }

  /** A long enough descent shows up as a path past the depth limit. */
  lemma {:induction false} LongWalkOverflows(trees: Trees, w: seq<Digest>, prefix: Path, depth: nat) returns (v: Visit)
    requires depth <= MAX_DEPTH && |prefix| == depth
    requires IsWalk(ChildEdge(trees), w) && |w| == MAX_DEPTH - depth + 2
    ensures v in UnfoldTree(trees, w[0], prefix, depth) && |v.path| > MAX_DEPTH
    decreases MAX_DEPTH - depth
  {
    assert ChildEdge(trees)(w[0], w[0 + 1]);
    var entries := trees[w[0]].entries;
    var i :| 0 <= i < |entries| && entries[i].kind == Directory(w[1]);
    var path := prefix + [entries[i].name];
    UnfoldEntry(trees, entries, prefix, depth, i);
    if depth < MAX_DEPTH {
      WalkSlice(ChildEdge(trees), w, 1, |w|);
      v := LongWalkOverflows(trees, w[1..], path, depth + 1);
      assert v in Below(trees, entries[i], path, depth);
    } else {
      v := Visit(path, entries[i]);
    }
  }

  lemma {:induction false} RepeatCycle(edge: (Digest, Digest) -> bool, cycle: seq<Digest>, n: nat) returns (w: seq<Digest>)
    requires IsCycle(edge, cycle)
    ensures IsWalk(edge, w) && |w| >= n && |w| >= 2 && w[0] == cycle[0] && w[|w| - 1] == cycle[0]
    decreases n
  {
    if n <= |cycle| {
      w := cycle;
    } else {
      var shorter := RepeatCycle(edge, cycle, n - 1);
      WalkJoin(edge, shorter, cycle);
      w := shorter + cycle[1..];
    }
  }

  /** A directory that reaches itself always breaks the depth limit. */
  lemma CycleOverflows(trees: Trees, cycle: seq<Digest>, prefix: Path, depth: nat) returns (v: Visit)
    requires depth <= MAX_DEPTH && |prefix| == depth && IsCycle(ChildEdge(trees), cycle)
    ensures v in UnfoldTree(trees, cycle[0], prefix, depth) && |v.path| > MAX_DEPTH
  {
    var n := MAX_DEPTH - depth + 2;
    var w := RepeatCycle(ChildEdge(trees), cycle, n);
    WalkSlice(ChildEdge(trees), w, 0, n);
    v := LongWalkOverflows(trees, w[0..n], prefix, depth);
  }

  /** In an accepted graph every chain of directories from the root is short, so none repeats. */
  lemma AcceptedWalksAreShort(objects: CanonicalObjects, root: Digest, w: seq<Digest>)
    requires GraphOk(objects, root)
    requires w != [] && w[0] == root && IsWalk(ChildEdge(objects.trees), w)
    ensures |w| <= MAX_DEPTH + 1
    ensures Distinct(w)
  {
    if |w| > MAX_DEPTH + 1 {
      LongWalkRejected(objects, root, w);
    }
    forall i, j | 0 <= i < j < |w| ensures w[i] != w[j] {
      if w[i] == w[j] {
        var edge := ChildEdge(objects.trees);
        WalkSlice(edge, w, 0, i + 1);
        WalkSlice(edge, w, i, j + 1);
        var loops := RepeatCycle(edge, w[i..j + 1], MAX_DEPTH + 2);
        WalkJoin(edge, w[0..i + 1], loops);
        LongWalkRejected(objects, root, w[0..i + 1] + loops[1..]);
      }
    }
  }

  lemma LongWalkRejected(objects: CanonicalObjects, root: Digest, w: seq<Digest>)
    requires |w| > MAX_DEPTH + 1 && w[0] == root && IsWalk(ChildEdge(objects.trees), w)
    ensures !GraphOk(objects, root)
  {
    WalkSlice(ChildEdge(objects.trees), w, 0, MAX_DEPTH + 2);
    var v := LongWalkOverflows(objects.trees, w[0..MAX_DEPTH + 2], [], 0);
  }
}
