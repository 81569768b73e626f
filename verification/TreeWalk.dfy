/** The recursive walk that validates a tree graph, and the byte count that runs on validated trees. */
module TreeWalk {
  import opened Base
  import opened Text
  import opened Graphs
  import opened Canonical
  import opened SymlinkGraph
  import opened TreeGraph
  import SymlinkCheck

  /** Counters and tables that the walk fills as it goes, with the set of directories being walked.
      `seen` and `stack` say what the counters stand for. */
  class WalkState {
    var entries: nat
    var fileBytes: nat
    var fileLengths: map<Digest, nat>
    var links: map<Path, Digest>
    var ancestors: set<Digest>
    ghost var seen: seq<Visit>
    ghost var stack: seq<Digest>

    ghost predicate Valid(objects: CanonicalObjects)
      reads this
    {
      && AllOk(objects, seen)
      && entries == |seen| && fileBytes == FileBytes(seen) && links == LinksOf(seen)
      && (forall d :: d in fileLengths ==> d in objects.files && fileLengths[d] == |objects.files[d]|)
      && IsWalk(ChildEdge(objects.trees), stack)
      && (forall d :: d in ancestors <==> d in stack)
    }

    constructor ()
      ensures seen == [] && stack == []
      ensures forall objects :: Valid(objects)
    {
      entries, fileBytes, fileLengths, links, ancestors := 0, 0, map[], map[], {};
      seen, stack := [], [];
    }

    /** Checks one path and accounts for it; the directory below it is left to the caller. */
    method VisitEntry(objects: CanonicalObjects, path: Path, e: TreeEntry) returns (r: Result<(), Issue>)
      requires Valid(objects)
      modifies this
      ensures r.Success? <==> AllOk(objects, old(seen) + [Visit(path, e)])
      ensures r.Success? ==> Valid(objects) && seen == old(seen) + [Visit(path, e)]
      ensures stack == old(stack)
    {
      ghost var v := Visit(path, e);
      FileBytesAppend(seen, [v]);
      assert AllOk(objects, seen + [v]) ==> VisitOk(objects, v) by {
        assert v in seen + [v];
      }
      assert (seen + [v])[..|seen|] == seen;
      if |path| > MAX_DEPTH || |Join(path)| > MAX_PATH_BYTES {
        return Failure(InvalidEncoding);
      }
      entries := entries + 1;
      if entries > MAX_ENTRIES {
        return Failure(InvalidEncoding);
      }
      match e.kind {
        case File(digest, byteLen) =>
          if digest !in objects.files {
            return Failure(Missing);
          }
          if |objects.files[digest]| != byteLen {
            return Failure(InvalidEncoding);
          }
          fileBytes := fileBytes + byteLen;
          if fileBytes > MAX_FILE_BYTES {
            return Failure(TooLarge);
          }
          if digest in fileLengths && fileLengths[digest] != byteLen {
            return Failure(InvalidEncoding);
          }
          fileLengths := fileLengths[digest := byteLen];
        case Directory(child) =>
          if child !in objects.trees {
            return Failure(Missing);
          }
          if objects.trees[child].rootMode != e.mode {
            return Failure(InvalidEncoding);
          }
        case Symlink(digest) =>
          if digest !in objects.symlinks {
            return Failure(Missing);
          }
          links := links[path := digest];
      }
      seen := seen + [v];
      r := Success(());
    }

    /** One entry of the directory on top of the stack, with everything below it. */
    method StepEntry(objects: CanonicalObjects, e: TreeEntry, prefix: Path, depth: nat) returns (r: Result<(), Issue>)
      requires Valid(objects) && depth <= MAX_DEPTH && |prefix| == depth
      requires stack != [] && (e.kind.Directory? ==> ChildEdge(objects.trees)(stack[|stack| - 1], e.kind.digest))
      modifies this
      ensures r.Success? <==> AllOk(objects, old(seen) + Unfold(objects.trees, [e], prefix, depth))
      ensures r.Success? ==> Valid(objects) && stack == old(stack)
      ensures r.Success? ==> seen == old(seen) + Unfold(objects.trees, [e], prefix, depth)
      decreases MAX_DEPTH - depth, 0
    {
      var path := prefix + [e.name];
      ghost var start, below := seen, Below(objects.trees, e, path, depth);
      SingleEntry(objects, start, e, prefix, depth);
      r := VisitEntry(objects, path, e);
      if r.Success? && e.kind.Directory? {
        assert Visit(path, e) in seen && VisitOk(objects, Visit(path, e));
        r := WalkTree(objects, e.kind.digest, path, depth + 1);
      }
    }

    /** Accepts exactly when the paths counted so far together with everything below `digest` are
        acceptable.  The test for a directory among its own ancestors never decides the outcome: such
        a directory breaks the depth limit. */
    method WalkTree(objects: CanonicalObjects, digest: Digest, prefix: Path, depth: nat) returns (r: Result<(), Issue>)
      requires Valid(objects) && depth <= MAX_DEPTH && |prefix| == depth
      requires stack != [] ==> ChildEdge(objects.trees)(stack[|stack| - 1], digest)
      modifies this
      ensures r.Success? <==>
        digest in objects.trees && AllOk(objects, old(seen) + UnfoldTree(objects.trees, digest, prefix, depth))
      ensures r.Success? ==> Valid(objects) && stack == old(stack)
      ensures r.Success? ==> seen == old(seen) + UnfoldTree(objects.trees, digest, prefix, depth)
      decreases MAX_DEPTH - depth, 1
    {
      hide AllOk, FileBytes, LinksOf;
      ghost var whole := seen + UnfoldTree(objects.trees, digest, prefix, depth);
      if digest in ancestors {
        RepeatedAncestor(objects, stack, digest, prefix, depth, seen);
        return Failure(InvalidEncoding);
      }
      ghost var outer := stack;
      ancestors, stack := ancestors + {digest}, stack + [digest];
      assert IsWalk(ChildEdge(objects.trees), stack);
      if digest !in objects.trees {
        return Failure(Missing);
      }
      var list := objects.trees[digest].entries;
      var i := 0;
      while i < |list|
        invariant i <= |list|
        invariant Valid(objects) && stack == outer + [digest]
        invariant seen + Unfold(objects.trees, list[i..], prefix, depth) == whole
      {
        StepOnUnfolding(objects, seen, list, i, prefix, depth);
        var stepped := StepEntry(objects, list[i], prefix, depth);
        if stepped.Failure? {
          return stepped;
        }
        i := i + 1;
      }
      assert seen == whole;
      ancestors, stack := ancestors - {digest}, outer;
      r := Success(());
    }
  }

  /** The unfolding of one entry is its own visit followed by what lies below it. */
  lemma SingleEntry(objects: CanonicalObjects, before: seq<Visit>, e: TreeEntry, prefix: Path, depth: nat)
    requires depth <= MAX_DEPTH
    ensures var v, below := Visit(prefix + [e.name], e), Below(objects.trees, e, prefix + [e.name], depth);
      && before + Unfold(objects.trees, [e], prefix, depth) == before + [v] + below
      && (AllOk(objects, before + [v] + below) ==> AllOk(objects, before + [v]))
      && before + [v] + [] == before + [v]
  {
    var v, below := Visit(prefix + [e.name], e), Below(objects.trees, e, prefix + [e.name], depth);
    assert [e][1..] == [];
    assert Unfold(objects.trees, [e], prefix, depth) == [v] + below;
    if AllOk(objects, before + [v] + below) {
      AllOkPrefix(objects, before + [v], below);
    }
  }

  lemma StepOnUnfolding(objects: CanonicalObjects, before: seq<Visit>, list: seq<TreeEntry>, i: nat, prefix: Path, depth: nat)
    requires depth <= MAX_DEPTH && i < |list|
    ensures var head, rest := Unfold(objects.trees, [list[i]], prefix, depth), Unfold(objects.trees, list[i + 1..], prefix, depth);
      && before + Unfold(objects.trees, list[i..], prefix, depth) == before + head + rest
      && (AllOk(objects, before + head + rest) ==> AllOk(objects, before + head))
  {
    var head, rest := Unfold(objects.trees, [list[i]], prefix, depth), Unfold(objects.trees, list[i + 1..], prefix, depth);
    assert list[i..] == [list[i]] + list[i + 1..];
    UnfoldAppend(objects.trees, [list[i]], list[i + 1..], prefix, depth);
    if AllOk(objects, before + head + rest) {
      AllOkPrefix(objects, before + head, rest);
    }
  }

  lemma RepeatedAncestor(objects: CanonicalObjects, stack: seq<Digest>, digest: Digest, prefix: Path, depth: nat, before: seq<Visit>)
    requires depth <= MAX_DEPTH && |prefix| == depth
    requires IsWalk(ChildEdge(objects.trees), stack) && digest in stack
    requires ChildEdge(objects.trees)(stack[|stack| - 1], digest)
    ensures !AllOk(objects, before + UnfoldTree(objects.trees, digest, prefix, depth))
  {
    var edge := ChildEdge(objects.trees);
    var k :| 0 <= k < |stack| && stack[k] == digest;
    WalkSlice(edge, stack, k, |stack|);
    var cycle := stack[k..] + [digest];
    assert IsWalk(edge, cycle);
    var v := CycleOverflows(objects.trees, cycle, prefix, depth);
    assert v in before + UnfoldTree(objects.trees, digest, prefix, depth);
  }

  /** Validates the whole graph below a root: every path, then the links among them. */
  method ValidateGraph(objects: CanonicalObjects, root: Digest) returns (r: Result<(), Issue>)
    ensures r.Success? <==> ValidTree(objects, root)
  {
    if root !in objects.trees {
      return Failure(Missing);
    }
    var state := new WalkState();
    assert state.Valid(objects);
    var walked := state.WalkTree(objects, root, [], 0);
    assert [] + UnfoldTree(objects.trees, root, [], 0) == UnfoldTree(objects.trees, root, [], 0);
    if walked.Failure? {
      return walked;
    }
    LinksHavePaths(objects.trees, root);
    r := SymlinkCheck.ValidateSymlinkGraph(state.links, objects.symlinks);
  }

  lemma LinksHavePaths(trees: Trees, root: Digest)
    ensures [] !in LinksOf(UnfoldTree(trees, root, [], 0))
  {
    var visits := UnfoldTree(trees, root, [], 0);
    LinksOfMember(visits, []);
    if [] in LinksOf(visits) {
      var v :| v in visits && v.path == [] && v.entry.kind == Symlink(LinksOf(visits)[[]]);
      UnfoldDeeper(trees, trees[root].entries, [], 0, v);
    }
  }

  /** The byte count of a validated tree.  It carries no guard of its own: that the recursion ends, that
      nothing is missing and that the total stays within the limit all come from validation. */
  method TreeFileBytes(objects: CanonicalObjects, digest: Digest, ghost prefix: Path, ghost depth: nat, before: nat)
    returns (total: nat)
    requires depth <= MAX_DEPTH && |prefix| == depth && digest in objects.trees
    requires AllOk(objects, UnfoldTree(objects.trees, digest, prefix, depth))
    ensures total == before + FileBytes(UnfoldTree(objects.trees, digest, prefix, depth))
    decreases MAX_DEPTH - depth
  {
    var list := objects.trees[digest].entries;
    ghost var visits := UnfoldTree(objects.trees, digest, prefix, depth);
    total := before;
    var i := 0;
    while i < |list|
      invariant i <= |list|
      invariant total + FileBytes(Unfold(objects.trees, list[i..], prefix, depth)) == before + FileBytes(visits)
      invariant AllOk(objects, Unfold(objects.trees, list[i..], prefix, depth))
    {
      var e := list[i];
      ghost var path := prefix + [e.name];
      ghost var below, rest := Below(objects.trees, e, path, depth), Unfold(objects.trees, list[i + 1..], prefix, depth);
      assert list[i..][1..] == list[i + 1..];
      ghost var v := Visit(path, e);
      assert Unfold(objects.trees, list[i..], prefix, depth) == [v] + below + rest;
      AllOkPrefix(objects, [v] + below, rest);
      AllOkPrefix(objects, [v], below);
      FileBytesAppend([v] + below, rest);
      FileBytesAppend([v], below);
      assert v in [v];
      match e.kind {
        case File(_, byteLen) =>
          total := total + byteLen;
        case Directory(child) =>
          total := TreeFileBytes(objects, child, path, depth + 1, total);
        case Symlink(_) =>
      }
      i := i + 1;
    }
  }
}
