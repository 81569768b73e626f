/** The marking of canonical objects by the store check: a visited set, no depth limit, and a finding
    for everything that is marked but not stored. */
module FsckMarks {
  import opened Base
  import opened Canonical
  import opened Names
  import opened SymlinkGraph
  import opened TreeGraph
  import opened TreeClosure
  import opened Loader

  /** Marks whose objects are not in the store. */
  ghost function Absent(objects: CanonicalObjects, x: Marks): set<Name> {
    MarkNames(x) - MarkNames(KeysOf(objects))
  }

  /** Marked trees are explored, up to directories that still wait. */
  ghost predicate Explored(trees: Trees, x: Marks, waiting: set<Digest>) {
    forall t, i :: t in x.trees && t in trees && 0 <= i < |trees[t].entries| ==>
      Marked(x.(trees := x.trees + waiting), trees[t].entries[i].kind)
  }

  /** Nothing is marked or waiting that some closed set above `roots` leaves out. */
  ghost predicate Needed(trees: Trees, roots: Marks, x: Marks, waiting: set<Digest>) {
    forall y :: MarksWithin(roots, y) && ClosedUnderChildren(trees, y) ==> MarksWithin(x, y) && waiting <= y.trees
  }

  ghost function Universe(trees: Trees, root: Digest): set<Digest> {
    {root} + set t, e | t in trees && e in trees[t].entries && e.kind.Directory? :: e.kind.digest
  }

  lemma ExploreEntries(trees: Trees, roots: Marks, x: Marks, y: Marks, waiting: set<Digest>, more: set<Digest>, t: Digest)
    requires t in trees
    requires Explored(trees, x, waiting + {t}) && Needed(trees, roots, x, waiting + {t})
    requires y == Marks(y.files, y.symlinks, x.trees + {t}) && x.files <= y.files && x.symlinks <= y.symlinks
    requires forall i :: 0 <= i < |trees[t].entries| ==> Marked(y.(trees := more), trees[t].entries[i].kind)
    requires forall d :: d in y.files && d !in x.files ==> exists i :: 0 <= i < |trees[t].entries| && trees[t].entries[i].kind.File? && trees[t].entries[i].kind.digest == d
    requires forall d :: d in y.symlinks && d !in x.symlinks ==> exists i :: 0 <= i < |trees[t].entries| && trees[t].entries[i].kind == Symlink(d)
    requires forall d :: d in more && d !in waiting ==> exists i :: 0 <= i < |trees[t].entries| && trees[t].entries[i].kind == Directory(d)
    requires waiting <= more
    ensures Explored(trees, y, more) && Needed(trees, roots, y, more)
  {
    forall z | MarksWithin(roots, z) && ClosedUnderChildren(trees, z)
      ensures MarksWithin(y, z) && more <= z.trees
    {
      assert t in z.trees;
      assert forall i :: 0 <= i < |trees[t].entries| ==> Marked(z, trees[t].entries[i].kind);
    }
  }

  /** What the entries of one tree add to the marks and to the stack, and which of them are not stored. */
  method MarkListing(objects: CanonicalObjects, list: seq<TreeEntry>, start: Marks, stack: seq<Digest>, absent: set<Name>)
    returns (x: Marks, pending: seq<Digest>, missing: set<Name>, complete: bool)
    requires absent == Absent(objects, start)
    ensures x.trees == start.trees && start.files <= x.files && start.symlinks <= x.symlinks
    ensures forall i :: 0 <= i < |list| ==> Marked(x.(trees := SetOf(pending)), list[i].kind)
    ensures forall d :: d in x.files && d !in start.files ==> exists i :: 0 <= i < |list| && list[i].kind.File? && list[i].kind.digest == d
    ensures forall d :: d in x.symlinks && d !in start.symlinks ==> exists i :: 0 <= i < |list| && list[i].kind == Symlink(d)
    ensures forall d :: d in SetOf(pending) && d !in SetOf(stack) ==> exists i :: 0 <= i < |list| && list[i].kind == Directory(d)
    ensures stack <= pending
    ensures missing == Absent(objects, x)
    ensures complete <==> forall i :: 0 <= i < |list| ==> EntryStored(objects, list[i])
  {
    x, pending, missing, complete := start, stack, absent, true;
    var n := 0;
    while n < |list|
      invariant n <= |list|
      invariant x.trees == start.trees && start.files <= x.files && start.symlinks <= x.symlinks
      invariant forall i :: 0 <= i < n ==> Marked(x.(trees := SetOf(pending)), list[i].kind)
      invariant forall d :: d in x.files && d !in start.files ==> exists i :: 0 <= i < n && list[i].kind.File? && list[i].kind.digest == d
      invariant forall d :: d in x.symlinks && d !in start.symlinks ==> exists i :: 0 <= i < n && list[i].kind == Symlink(d)
      invariant forall d :: d in SetOf(pending) && d !in SetOf(stack) ==> exists i :: 0 <= i < n && list[i].kind == Directory(d)
      invariant stack <= pending
      invariant missing == Absent(objects, x)
      invariant complete <==> forall i :: 0 <= i < n ==> EntryStored(objects, list[i])
    {
      var e := list[n];
      match e.kind {
        case File(d, byteLen) =>
          x := x.(files := x.files + {d});
          if d !in objects.files {
            missing, complete := missing + {FileName(d)}, false;
          } else if |objects.files[d]| != byteLen {
            complete := false;
          }
        case Directory(d) =>
          pending := pending + [d];
        case Symlink(d) =>
          x := x.(symlinks := x.symlinks + {d});
          if d !in objects.symlinks {
            missing, complete := missing + {SymlinkName(d)}, false;
          }
      }
      n := n + 1;
    }
  }

  ghost predicate EntryStored(objects: CanonicalObjects, e: TreeEntry) {
    match e.kind
    case File(d, byteLen) => d in objects.files && |objects.files[d]| == byteLen
    case Directory(_) => true
    case Symlink(d) => d in objects.symlinks
  }

  /** Marks everything below one root, visiting each tree once even when the graph has cycles. */
  method MarkTree(objects: CanonicalObjects, root: Digest, start: Marks, absent: set<Name>, ghost roots: Marks)
    returns (x: Marks, missing: set<Name>, complete: bool)
    requires absent == Absent(objects, start)
    requires Explored(objects.trees, start, {}) && Needed(objects.trees, roots, start, {root})
    ensures root in x.trees && MarksWithin(start, x)
    ensures Explored(objects.trees, x, {}) && Needed(objects.trees, roots, x, {})
    ensures missing == Absent(objects, x)
    ensures complete ==> forall t :: t in x.trees && t !in start.trees ==> t in objects.trees
  {
    hide Explored, Needed, Absent;
    ghost var universe := start.trees + Universe(objects.trees, root);
    x, missing, complete := start, absent, true;
    var pending := [root];
    OnlyRoot(objects.trees, roots, start, root);
    while pending != []
      invariant MarksWithin(start, x) && (root in x.trees || root in pending)
      invariant x.trees <= universe && SetOf(pending) <= universe
      invariant Explored(objects.trees, x, SetOf(pending)) && Needed(objects.trees, roots, x, SetOf(pending))
      invariant missing == Absent(objects, x)
      invariant complete ==> forall t :: t in x.trees && t !in start.trees ==> t in objects.trees
      decreases universe - x.trees, |pending|
    {
      var t, rest := pending[|pending| - 1], pending[..|pending| - 1];
      LastOf(pending);
      pending := rest;
      if t in x.trees {
        AlreadyMarked(objects.trees, roots, x, SetOf(rest), t);
        continue;
      }
      ghost var before := x;
      x := x.(trees := x.trees + {t});
      if t !in objects.trees {
        missing, complete := missing + {TreeName(t)}, false;
        MissingTree(objects, roots, before, SetOf(rest), t);
        continue;
      }
      StoredTree(objects, before, t);
      var listed;
      ghost var marked := x;
      x, pending, missing, listed := MarkListing(objects, objects.trees[t].entries, x, rest, missing);
      complete := complete && listed;
      PendingInUniverse(objects.trees, root, t, SetOf(rest), SetOf(pending), universe);
      ListingExplored(objects.trees, roots, before, x, rest, pending, t);
    }
    assert SetOf(pending) == {};
  }

  lemma LastOf(pending: seq<Digest>)
    requires pending != []
    ensures SetOf(pending) == SetOf(pending[..|pending| - 1]) + {pending[|pending| - 1]}
    ensures forall d :: d in pending ==> d == pending[|pending| - 1] || d in pending[..|pending| - 1]
  {
    assert pending == pending[..|pending| - 1] + [pending[|pending| - 1]];
  }

  lemma OnlyRoot(trees: Trees, roots: Marks, x: Marks, root: Digest)
    requires Explored(trees, x, {}) && Needed(trees, roots, x, {root})
    ensures SetOf([root]) == {root} && Explored(trees, x, SetOf([root]))
  {
  }

  lemma AlreadyMarked(trees: Trees, roots: Marks, x: Marks, waiting: set<Digest>, t: Digest)
    requires t in x.trees && Explored(trees, x, waiting + {t}) && Needed(trees, roots, x, waiting + {t})
    ensures Explored(trees, x, waiting) && Needed(trees, roots, x, waiting)
  {
    assert x.trees + (waiting + {t}) == x.trees + waiting;
  }

  lemma MissingTree(objects: CanonicalObjects, roots: Marks, x: Marks, waiting: set<Digest>, t: Digest)
    requires t !in objects.trees && Explored(objects.trees, x, waiting + {t}) && Needed(objects.trees, roots, x, waiting + {t})
    ensures var y := x.(trees := x.trees + {t});
      Explored(objects.trees, y, waiting) && Needed(objects.trees, roots, y, waiting)
      && Absent(objects, y) == Absent(objects, x) + {TreeName(t)}
  {
    assert x.trees + (waiting + {t}) == x.trees + {t} + waiting;
  }

  lemma StoredTree(objects: CanonicalObjects, x: Marks, t: Digest)
    requires t in objects.trees
    ensures Absent(objects, x.(trees := x.trees + {t})) == Absent(objects, x)
  {
  }

  lemma PendingInUniverse(trees: Trees, root: Digest, t: Digest, waiting: set<Digest>, more: set<Digest>, universe: set<Digest>)
    requires t in trees && Universe(trees, root) <= universe && waiting <= universe
    requires forall d :: d in more && d !in waiting ==> exists i :: 0 <= i < |trees[t].entries| && trees[t].entries[i].kind == Directory(d)
    ensures more <= universe
  {
    forall d | d in more && d !in waiting ensures d in universe {
      var i :| 0 <= i < |trees[t].entries| && trees[t].entries[i].kind == Directory(d);
      assert trees[t].entries[i] in trees[t].entries;
    }
  }

  lemma ListingExplored(trees: Trees, roots: Marks, x: Marks, y: Marks, rest: seq<Digest>, pending: seq<Digest>, t: Digest)
    requires t in trees && rest <= pending
    requires Explored(trees, x, SetOf(rest) + {t}) && Needed(trees, roots, x, SetOf(rest) + {t})
    requires y.trees == x.trees + {t} && x.files <= y.files && x.symlinks <= y.symlinks
    requires forall i :: 0 <= i < |trees[t].entries| ==> Marked(y.(trees := SetOf(pending)), trees[t].entries[i].kind)
    requires forall d :: d in y.files && d !in x.files ==> exists i :: 0 <= i < |trees[t].entries| && trees[t].entries[i].kind.File? && trees[t].entries[i].kind.digest == d
    requires forall d :: d in y.symlinks && d !in x.symlinks ==> exists i :: 0 <= i < |trees[t].entries| && trees[t].entries[i].kind == Symlink(d)
    requires forall d :: d in SetOf(pending) && d !in SetOf(rest) ==> exists i :: 0 <= i < |trees[t].entries| && trees[t].entries[i].kind == Directory(d)
    ensures Explored(trees, y, SetOf(pending)) && Needed(trees, roots, y, SetOf(pending))
  {
    forall d | d in SetOf(rest) ensures d in SetOf(pending) {
      var k :| 0 <= k < |rest| && rest[k] == d;
      assert pending[k] == d;
    }
    ExploreEntries(trees, roots, x, y, SetOf(rest), SetOf(pending), t);
  }

  /** Marks from all roots.  The result is the least closed set above them, whatever the shape of the
      graph, and the objects reported missing are exactly the marked ones that are not stored. */
  method MarkRoots(objects: CanonicalObjects, roots: Marks) returns (x: Marks, missing: set<Name>)
    ensures LeastClosed(objects.trees, roots, x)
    ensures missing == Absent(objects, x)
  {
    hide Explored, Needed, Absent;
    x := roots.(trees := {});
    missing := (set d | d in roots.files && d !in objects.files :: FileName(d))
             + (set d | d in roots.symlinks && d !in objects.symlinks :: SymlinkName(d));
    RootsStart(objects, roots, missing);
    var done: set<Digest> := {};
    while done != roots.trees
      invariant done <= roots.trees && done <= x.trees && MarksWithin(roots.(trees := {}), x)
      invariant Explored(objects.trees, x, {}) && Needed(objects.trees, roots, x, {})
      invariant missing == Absent(objects, x)
      decreases roots.trees - done
    {
      assert !(roots.trees <= done);
      var root :| root in roots.trees && root !in done;
      RootNeeded(objects.trees, roots, x, root);
      var complete;
      x, missing, complete := MarkTree(objects, root, x, missing, roots);
      done := done + {root};
    }
    ExploredIsLeast(objects.trees, roots, x);
  }

  lemma RootsStart(objects: CanonicalObjects, roots: Marks, missing: set<Name>)
    requires missing == (set d | d in roots.files && d !in objects.files :: FileName(d))
             + (set d | d in roots.symlinks && d !in objects.symlinks :: SymlinkName(d))
    ensures var x := roots.(trees := {});
      Explored(objects.trees, x, {}) && Needed(objects.trees, roots, x, {}) && missing == Absent(objects, x)
  {
  }

  lemma RootNeeded(trees: Trees, roots: Marks, x: Marks, root: Digest)
    requires root in roots.trees && Needed(trees, roots, x, {})
    ensures Needed(trees, roots, x, {root})
  {
  }

  lemma ExploredIsLeast(trees: Trees, roots: Marks, x: Marks)
    requires MarksWithin(roots, x) && Explored(trees, x, {}) && Needed(trees, roots, x, {})
    ensures LeastClosed(trees, roots, x)
  {
    assert x.(trees := x.trees + {}) == x;
  }

  /** The check marks what the loader reads: two independent computations of one closure. */
  lemma CheckMarksWhatIsLoaded(disk: Disk, roots: set<Digest>, direct: set<Digest>, x: Marks)
    requires LeastClosed(disk.objects.trees, Marks({}, direct, roots), x)
    requires forall r :: r in roots ==> ValidTree(disk.objects, r)
    ensures x == LoadMarks(disk, roots, direct)
  {
    forall r | r in roots ensures Shallow(UnfoldTree(disk.objects.trees, r, [], 0)) {
      assert ValidTree(disk.objects, r);
    }
    ClosureIsLeast(disk.objects.trees, Marks({}, direct, roots));
    LeastClosedUnique(disk.objects.trees, Marks({}, direct, roots), x, LoadMarks(disk, roots, direct));
  }
}
