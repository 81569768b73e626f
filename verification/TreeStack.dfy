/** Bookkeeping for the walks that use an explicit stack of directories instead of recursion.  What
    has been visited, what is left of the current directory and what the stack still stands for
    always make up the unfolding of the root, path for path. */
module TreeStack {
  import opened Base
  import opened Text
  import opened Canonical
  import opened SymlinkGraph
  import opened TreeGraph

  /** A directory waiting on the stack, at the path where it was found. */
  datatype Open = Open(digest: Digest, path: Path)

  ghost predicate StackOk(open: seq<Open>) {
    forall i :: 0 <= i < |open| ==> |open[i].path| <= MAX_DEPTH && Proper(open[i].path)
  }

  ghost function Waiting(trees: Trees, open: seq<Open>): seq<Visit>
    requires StackOk(open)
  {
    if open == [] then []
    else
      var top := open[|open| - 1];
      Waiting(trees, open[..|open| - 1]) + UnfoldTree(trees, top.digest, top.path, |top.path|)
  }

  ghost predicate Accounted(trees: Trees, root: Digest, done: seq<Visit>, left: seq<TreeEntry>, path: Path, open: seq<Open>)
    requires |path| <= MAX_DEPTH && StackOk(open)
  {
    multiset(done) + multiset(Unfold(trees, left, path, |path|)) + multiset(Waiting(trees, open))
      == multiset(UnfoldTree(trees, root, [], 0))
  }

  lemma StartStack(trees: Trees, root: Digest)
    ensures StackOk([Open(root, [])]) && Accounted(trees, root, [], [], [], [Open(root, [])])
  {
    var u := UnfoldTree(trees, root, [], 0);
    assert Waiting(trees, []) + u == u;
    assert [Open(root, [])][..0] == [];
  }

  lemma PopStack(trees: Trees, root: Digest, done: seq<Visit>, path: Path, open: seq<Open>)
    requires |path| <= MAX_DEPTH && StackOk(open) && open != []
    requires Accounted(trees, root, done, [], path, open)
    requires open[|open| - 1].digest in trees
    ensures var top := open[|open| - 1];
            StackOk(open[..|open| - 1])
            && Accounted(trees, root, done, trees[top.digest].entries, top.path, open[..|open| - 1])
  {
  }

  ghost function Push(open: seq<Open>, path: Path, e: TreeEntry): seq<Open> {
    if e.kind.Directory? then open + [Open(e.kind.digest, path + [e.name])] else open
  }

  lemma UnfoldWithout(trees: Trees, left: seq<TreeEntry>, rest: seq<TreeEntry>, e: TreeEntry, path: Path)
    requires |path| <= MAX_DEPTH
    requires left == [e] + rest || left == rest + [e]
    ensures multiset(Unfold(trees, left, path, |path|))
         == multiset{Visit(path + [e.name], e)} + multiset(Below(trees, e, path + [e.name], |path|)) + multiset(Unfold(trees, rest, path, |path|))
  {
    var v, below := Visit(path + [e.name], e), Below(trees, e, path + [e.name], |path|);
    assert [e][1..] == [];
    assert Unfold(trees, [e], path, |path|) == [v] + below;
    UnfoldAppend(trees, [e], rest, path, |path|);
    UnfoldAppend(trees, rest, [e], path, |path|);
  }

  lemma WaitingAfterPush(trees: Trees, open: seq<Open>, path: Path, e: TreeEntry)
    requires |path| < MAX_DEPTH && Proper(path) && StackOk(open) && e.name != []
    ensures StackOk(Push(open, path, e))
    ensures multiset(Waiting(trees, Push(open, path, e))) == multiset(Waiting(trees, open)) + multiset(Below(trees, e, path + [e.name], |path|))
  {
    if e.kind.Directory? {
      var top := Open(e.kind.digest, path + [e.name]);
      assert (open + [top])[..|open|] == open;
      assert Below(trees, e, path + [e.name], |path|) == UnfoldTree(trees, top.digest, top.path, |top.path|);
    }
  }

  /** Visiting the next entry moves it, and the directory it may be, out of what is left. */
  lemma TakeEntry(trees: Trees, root: Digest, done: seq<Visit>, left: seq<TreeEntry>, rest: seq<TreeEntry>, e: TreeEntry, path: Path, open: seq<Open>)
    requires |path| <= MAX_DEPTH && Proper(path) && StackOk(open) && e.name != []
    requires Accounted(trees, root, done, left, path, open)
    requires left == [e] + rest || left == rest + [e]
    ensures Visit(path + [e.name], e) in UnfoldTree(trees, root, [], 0)
    ensures multiset(done + [Visit(path + [e.name], e)]) <= multiset(UnfoldTree(trees, root, [], 0))
    ensures |path| < MAX_DEPTH ==>
      StackOk(Push(open, path, e)) && Accounted(trees, root, done + [Visit(path + [e.name], e)], rest, path, Push(open, path, e))
  {
    var v := Visit(path + [e.name], e);
    var u := multiset(UnfoldTree(trees, root, [], 0));
    var rested := multiset(Unfold(trees, rest, path, |path|));
    UnfoldWithout(trees, left, rest, e, path);
    MoveOut(multiset(done), v, multiset(Below(trees, e, path + [e.name], |path|)), rested, multiset(Waiting(trees, open)), u);
    assert multiset(done + [v]) == multiset(done) + multiset{v};
    if |path| < MAX_DEPTH {
      WaitingAfterPush(trees, open, path, e);
    }
  }

  lemma MoveOut(done: multiset<Visit>, v: Visit, below: multiset<Visit>, rest: multiset<Visit>, waiting: multiset<Visit>, u: multiset<Visit>)
    requires done + (multiset{v} + below + rest) + waiting == u
    ensures (done + multiset{v}) + rest + (waiting + below) == u
    ensures done + multiset{v} <= u && v in u
  {
    assert u == (done + multiset{v}) + (rest + (waiting + below));
  }

  /** When nothing is left, every path of the unfolding has been visited exactly as often as it occurs. */
  lemma StackDone(trees: Trees, root: Digest, done: seq<Visit>, path: Path)
    requires |path| <= MAX_DEPTH && Accounted(trees, root, done, [], path, [])
    ensures multiset(done) == multiset(UnfoldTree(trees, root, [], 0))
  {
  }

  lemma SameMultiset(a: seq<Visit>, b: seq<Visit>)
    requires multiset(a) == multiset(b)
    ensures |a| == |b| && (forall v :: v in a <==> v in b)
    ensures forall weight: Visit -> nat :: Weigh(a, weight) == Weigh(b, weight)
  {
    assert |multiset(a)| == |a| && |multiset(b)| == |b|;
    forall v ensures v in a <==> v in b {
      assert v in multiset(a) <==> v in multiset(b);
    }
    forall weight: Visit -> nat ensures Weigh(a, weight) == Weigh(b, weight) {
      WeighMonotone(a, b, weight);
      WeighMonotone(b, a, weight);
    }
  }

  /** Part of an acceptable unfolding is acceptable so far. */
  lemma PartOk(objects: CanonicalObjects, root: Digest, part: seq<Visit>)
    requires GraphOk(objects, root) && multiset(part) <= multiset(UnfoldTree(objects.trees, root, [], 0))
    ensures AllOk(objects, part)
  {
    var whole := UnfoldTree(objects.trees, root, [], 0);
    assert |multiset(part)| <= |multiset(whole)| by {
      assert multiset(whole) == multiset(part) + (multiset(whole) - multiset(part));
    }
    WeighMonotone(part, whole, FileWeight);
    forall v | v in part ensures VisitOk(objects, v) {
      assert v in multiset(part) && v in multiset(whole);
    }
  }
}
