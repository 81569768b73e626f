/** The inspection walk, which lists every path of a tree with an explicit stack and reads each object
    the first time it is met. */
module TreeListing {
  import opened Base
  import opened Text
  import opened Graphs
  import opened Canonical
  import opened Names
  import opened SymlinkGraph
  import opened TreeGraph
  import opened TreeStack
  import opened TreeClosure
  import opened Loader
  import TreeWalk

  // ----- A tree lists each path once

  /** Two visits at the same path are the same occurrence: names within a directory differ. */
  lemma {:induction false} PathsDistinct(trees: Trees, entries: seq<TreeEntry>, prefix: Path, depth: nat, i: nat, j: nat)
    requires depth <= MAX_DEPTH && |prefix| == depth && WellNamedTrees(trees) && StrictlySorted(NamesIn(entries))
    requires i < j < |Unfold(trees, entries, prefix, depth)|
    ensures Unfold(trees, entries, prefix, depth)[i].path != Unfold(trees, entries, prefix, depth)[j].path
    decreases MAX_DEPTH - depth, |entries|
  {
    hide StrictlySorted, NamesIn;
    var path := prefix + [entries[0].name];
    var u := Unfold(trees, entries, prefix, depth);
    var below, rest := Below(trees, entries[0], path, depth), Unfold(trees, entries[1..], prefix, depth);
    SortedTail(entries);
    if 1 <= i && j < 1 + |below| {
      assert WellNamed(trees[entries[0].kind.digest]);
      PathsDistinct(trees, trees[entries[0].kind.digest].entries, path, depth + 1, i - 1, j - 1);
    } else if i > |below| {
      PathsDistinct(trees, entries[1..], prefix, depth, i - 1 - |below|, j - 1 - |below|);
    } else if j > |below| {
      FirstSegment(trees, entries, prefix, depth, rest[j - 1 - |below|]);
      HeadSegment(trees, entries[0], prefix, depth, u[i]);
    } else {
      UnfoldDeeper(trees, trees[entries[0].kind.digest].entries, path, depth + 1, below[j - 1]);
    }
  }

  lemma SortedTail(entries: seq<TreeEntry>)
    requires entries != [] && StrictlySorted(NamesIn(entries))
    ensures StrictlySorted(NamesIn(entries[1..]))
    ensures forall k :: 1 <= k < |entries| ==> entries[k].name != entries[0].name
  {
    var names := NamesIn(entries);
    forall k | 0 <= k < |entries| - 2 ensures Before(NamesIn(entries[1..])[k], NamesIn(entries[1..])[k + 1]) {
      assert Before(names[k + 1], names[k + 1 + 1]);
    }
    SortedDistinct(names);
    assert forall k :: 0 <= k < |entries| ==> names[k] == entries[k].name;
  }

  /** A visit that comes from a later entry carries that entry's name right after the prefix. */
  lemma FirstSegment(trees: Trees, entries: seq<TreeEntry>, prefix: Path, depth: nat, v: Visit)
    requires depth <= MAX_DEPTH && |prefix| == depth && entries != [] && StrictlySorted(NamesIn(entries))
    requires v in Unfold(trees, entries[1..], prefix, depth)
    ensures |v.path| > depth && v.path[depth] != entries[0].name
  {
    SortedTail(entries);
    var k := UnfoldSource(trees, entries[1..], prefix, depth, v);
    HeadSegment(trees, entries[1..][k], prefix, depth, v);
  }

  lemma HeadSegment(trees: Trees, e: TreeEntry, prefix: Path, depth: nat, v: Visit)
    requires depth <= MAX_DEPTH && |prefix| == depth
    requires v == Visit(prefix + [e.name], e) || v in Below(trees, e, prefix + [e.name], depth)
    ensures |v.path| > depth && v.path[depth] == e.name
  {
    if v in Below(trees, e, prefix + [e.name], depth) {
      UnfoldDeeper(trees, trees[e.kind.digest].entries, prefix + [e.name], depth + 1, v);
      assert v.path[depth] == v.path[..depth + 1][depth];
    }
  }

  /** No path occurs twice in the unfolding of a root. */
  lemma EachPathOnce(trees: Trees, root: Digest)
    requires WellNamedTrees(trees)
    ensures forall i, j :: 0 <= i < j < |UnfoldTree(trees, root, [], 0)| ==>
      UnfoldTree(trees, root, [], 0)[i].path != UnfoldTree(trees, root, [], 0)[j].path
  {
    forall i, j | 0 <= i < j < |UnfoldTree(trees, root, [], 0)|
      ensures UnfoldTree(trees, root, [], 0)[i].path != UnfoldTree(trees, root, [], 0)[j].path
    {
      assert WellNamed(trees[root]);
      PathsDistinct(trees, trees[root].entries, [], 0, i, j);
    }
  }

  // ----- Listing

  /** What the inspection of a root needs. */
  ghost predicate Inspectable(disk: Disk, root: Digest, maxEntries: nat, maxBytes: nat) {
    var x := ClosureOf(disk.objects.trees, OnlyTree(root));
    && ValidTree(disk.objects, root)
    && Readable(disk, x)
    && |UnfoldTree(disk.objects.trees, root, [], 0)| <= maxEntries
    && StoredBytes(disk, x) <= maxBytes
  }

  /** The bytes read so far and the objects they bought. */
  class DecodeBudget {
    const maximum: nat
    var decoded: nat

    constructor (maximum: nat)
      ensures this.maximum == maximum && decoded == 0
    {
      this.maximum, decoded := maximum, 0;
    }

    ghost predicate Pays(disk: Disk, objects: CanonicalObjects)
      reads this
    {
      Held(disk, objects) && decoded == StoredBytes(disk, KeysOf(objects)) <= maximum
    }

    /** Charges before reading, and refuses what would go past the requested maximum. */
    method Charge(size: nat) returns (ok: bool)
      modifies this
      ensures ok <==> old(decoded) + size <= maximum
      ensures decoded == (if ok then old(decoded) + size else old(decoded))
    {
      ok := decoded + size <= maximum;
      if ok {
        decoded := decoded + size;
      }
    }
  }

  method InspectTree(disk: Disk, budget: DecodeBudget, objects: CanonicalObjects, digest: Digest)
    returns (ok: bool, next: CanonicalObjects)
    requires budget.Pays(disk, objects)
    modifies budget
    ensures ok ==> budget.Pays(disk, next) && digest in disk.objects.trees && next == WithTree(disk, objects, digest)
    ensures ok ==> KeysOf(next) == Join2(KeysOf(objects), OnlyTree(digest))
    ensures !ok ==> (!Readable(disk, OnlyTree(digest))
             || StoredBytes(disk, Join2(KeysOf(objects), OnlyTree(digest))) > budget.maximum)
  {
    if digest in objects.trees {
      assert objects.trees[digest := disk.objects.trees[digest]] == objects.trees;
      return true, objects;
    }
    if digest !in disk.objects.trees || TreeName(digest) in disk.damaged {
      return false, objects;
    }
    HoldTree(disk, objects, digest);
    ok := budget.Charge(disk.sizes(TreeName(digest)));
    if !ok {
      return false, objects;
    }
    next := objects.(trees := objects.trees[digest := disk.objects.trees[digest]]);
  }

  method InspectFile(disk: Disk, budget: DecodeBudget, objects: CanonicalObjects, digest: Digest, byteLen: nat)
    returns (ok: bool, next: CanonicalObjects)
    requires budget.Pays(disk, objects)
    modifies budget
    ensures ok ==> budget.Pays(disk, next) && digest in disk.objects.files && next == WithFile(disk, objects, digest)
    ensures ok ==> KeysOf(next) == Join2(KeysOf(objects), OnlyFile(digest))
    ensures !ok ==> (!Readable(disk, OnlyFile(digest))
             || |disk.objects.files[digest]| != byteLen
             || StoredBytes(disk, Join2(KeysOf(objects), OnlyFile(digest))) > budget.maximum)
  {
    if digest in objects.files {
      assert objects.files[digest := disk.objects.files[digest]] == objects.files;
      return true, objects;
    }
    if digest !in disk.objects.files || FileName(digest) in disk.damaged {
      return false, objects;
    }
    HoldFile(disk, objects, digest);
    ok := budget.Charge(disk.sizes(FileName(digest)));
    if !ok {
      return false, objects;
    }
    if |disk.objects.files[digest]| != byteLen {
      return false, objects;
    }
    next := objects.(files := objects.files[digest := disk.objects.files[digest]]);
  }

  method InspectLink(disk: Disk, budget: DecodeBudget, objects: CanonicalObjects, digest: Digest)
    returns (ok: bool, next: CanonicalObjects)
    requires budget.Pays(disk, objects)
    modifies budget
    ensures ok ==> budget.Pays(disk, next) && digest in disk.objects.symlinks && next == WithLink(disk, objects, digest)
    ensures ok ==> KeysOf(next) == Join2(KeysOf(objects), OnlyLink(digest))
    ensures !ok ==> (!Readable(disk, OnlyLink(digest))
             || StoredBytes(disk, Join2(KeysOf(objects), OnlyLink(digest))) > budget.maximum)
  {
    if digest in objects.symlinks {
      assert objects.symlinks[digest := disk.objects.symlinks[digest]] == objects.symlinks;
      return true, objects;
    }
    if digest !in disk.objects.symlinks || SymlinkName(digest) in disk.damaged {
      return false, objects;
    }
    HoldLink(disk, objects, digest);
    ok := budget.Charge(disk.sizes(SymlinkName(digest)));
    if !ok {
      return false, objects;
    }
    next := objects.(symlinks := objects.symlinks[digest := disk.objects.symlinks[digest]]);
  }

  /** Everything listed so far is part of the unfolding and within the depth limit. */
  ghost predicate PartOf(trees: Trees, root: Digest, visits: seq<Visit>) {
    multiset(visits) <= multiset(UnfoldTree(trees, root, [], 0))
  }

  lemma VisitInClosure(trees: Trees, root: Digest, visits: seq<Visit>, v: Visit)
    requires PartOf(trees, root, visits) && v in visits
    ensures v in UnfoldTree(trees, root, [], 0) && Marked(ClosureOf(trees, OnlyTree(root)), v.entry.kind)
  {
    var u := UnfoldTree(trees, root, [], 0);
    assert v in multiset(visits) && v in multiset(u);
    ClosureContains(trees, OnlyTree(root), root, v);
  }

  /** A limit broken by part of the unfolding rules the whole inspection out. */
  lemma ListingRejected(disk: Disk, root: Digest, maxEntries: nat, maxBytes: nat, visits: seq<Visit>)
    requires PartOf(disk.objects.trees, root, visits)
    requires !AllOk(disk.objects, visits) || |visits| > maxEntries
    ensures !Inspectable(disk, root, maxEntries, maxBytes)
  {
    hide UnfoldTree, ClosureOf, Readable, StoredBytes, VisitOk, LinksOf;
    var u := UnfoldTree(disk.objects.trees, root, [], 0);
    assert multiset(u) == multiset(visits) + (multiset(u) - multiset(visits));
    assert |multiset(u)| == |u| && |multiset(visits)| == |visits|;
    if GraphOk(disk.objects, root) {
      PartOk(disk.objects, root, visits);
    }
  }

  lemma ReadRejected(disk: Disk, root: Digest, maxEntries: nat, maxBytes: nat, held: Marks, one: Marks)
    requires MarksWithin(held, ClosureOf(disk.objects.trees, OnlyTree(root)))
    requires MarksWithin(one, ClosureOf(disk.objects.trees, OnlyTree(root)))
    requires !Readable(disk, one) || StoredBytes(disk, Join2(held, one)) > maxBytes
    ensures !Inspectable(disk, root, maxEntries, maxBytes)
  {
    hide UnfoldTree, ClosureOf, ValidTree, MarkNames;
    BytesMonotone(disk, Join2(held, one), ClosureOf(disk.objects.trees, OnlyTree(root)));
  }

  /** The object that one entry refers to. */
  ghost function RefersTo(e: TreeEntry): Marks {
    match e.kind
    case File(d, _) => OnlyFile(d)
    case Symlink(d) => OnlyLink(d)
    case Directory(_) => Marks({}, {}, {})
  }

  /** Checks one entry, reads the file or link it names and decides whether it can be listed. */
  method ListEntry(disk: Disk, budget: DecodeBudget, ghost root: Digest, objects: CanonicalObjects, listed: seq<Visit>,
                   v: Visit, maxEntries: nat, fileBytes: nat)
    returns (ok: bool, next: CanonicalObjects, total: nat)
    requires budget.Pays(disk, objects) && MarksWithin(KeysOf(objects), ClosureOf(disk.objects.trees, OnlyTree(root)))
    requires PartOf(disk.objects.trees, root, listed + [v]) && fileBytes == FileBytes(listed) && |listed| <= maxEntries
    modifies budget
    ensures ok ==> budget.Pays(disk, next) && KeysOf(next) == Join2(KeysOf(objects), RefersTo(v.entry))
    ensures ok ==> MarksWithin(KeysOf(next), ClosureOf(disk.objects.trees, OnlyTree(root)))
    ensures ok ==> total == FileBytes(listed + [v]) && |v.path| <= MAX_DEPTH && |listed| < maxEntries
    ensures !ok ==> !Inspectable(disk, root, maxEntries, budget.maximum)
  {
    hide UnfoldTree, ClosureOf, Inspectable, Held, Readable, StoredBytes, PartOf, Join, Weigh;
    next, total, ok := objects, fileBytes, true;
    FileBytesAppend(listed, [v]);
    assert v in listed + [v];
    VisitInClosure(disk.objects.trees, root, listed + [v], v);
    if |v.path| > MAX_DEPTH || |Join(v.path)| > MAX_PATH_BYTES || |listed| == maxEntries || |listed| == MAX_ENTRIES {
      ListingRejected(disk, root, maxEntries, budget.maximum, listed + [v]);
      return false, next, total;
    }
    match v.entry.kind {
      case File(digest, byteLen) =>
        total := fileBytes + byteLen;
        if total > MAX_FILE_BYTES {
          ListingRejected(disk, root, maxEntries, budget.maximum, listed + [v]);
          return false, next, total;
        }
        ok, next := InspectFile(disk, budget, objects, digest, byteLen);
        if !ok {
          if digest in disk.objects.files && |disk.objects.files[digest]| != byteLen {
            ListingRejected(disk, root, maxEntries, budget.maximum, listed + [v]);
          } else {
            FileUnreadable(disk, digest);
            ReadRejected(disk, root, maxEntries, budget.maximum, KeysOf(objects), OnlyFile(digest));
          }
        }
      case Directory(_) =>
        assert Join2(KeysOf(objects), RefersTo(v.entry)) == KeysOf(objects);
      case Symlink(digest) =>
        ok, next := InspectLink(disk, budget, objects, digest);
        if !ok {
          ReadRejected(disk, root, maxEntries, budget.maximum, KeysOf(objects), OnlyLink(digest));
        }
    }
  }

  lemma FileUnreadable(disk: Disk, digest: Digest)
    ensures digest !in disk.objects.files ==> !Readable(disk, OnlyFile(digest))
  {
  }

  ghost function RootMarks(disk: Disk, root: Digest): Marks { ClosureOf(disk.objects.trees, OnlyTree(root)) }

  ghost predicate StillToRead(objects: CanonicalObjects, root: Digest, listed: seq<Visit>, stack: seq<Open>) {
    && FilesIn(listed) <= objects.files.Keys && LinksIn(listed) <= objects.symlinks.Keys
    && TreesIn(listed) + {root} <= objects.trees.Keys + OpenDigests(stack)
  }

  /** The state of the listing: what is listed, what waits on the stack, and what has been read. */
  ghost predicate ListingOk(disk: Disk, root: Digest, objects: CanonicalObjects, listed: seq<Visit>, left: seq<TreeEntry>, path: Path, stack: seq<Open>) {
    && |path| <= MAX_DEPTH && Proper(path) && StackOk(stack)
    && Accounted(disk.objects.trees, root, listed, left, path, stack)
    && PartOf(disk.objects.trees, root, listed) && Shallow(listed)
    && MarksWithin(KeysOf(objects), RootMarks(disk, root)) && OpenDigests(stack) <= RootMarks(disk, root).trees
    && StillToRead(objects, root, listed, stack)
    && (forall o :: o in stack && o.path == [] ==> o.digest == root)
  }

  lemma ListingStart(disk: Disk, root: Digest)
    ensures ListingOk(disk, root, NO_OBJECTS, [], [], [], [Open(root, [])])
    ensures Held(disk, NO_OBJECTS) && StoredBytes(disk, KeysOf(NO_OBJECTS)) == 0
  {
    hide UnfoldTree, Waiting;
    StartStack(disk.objects.trees, root);
    NothingHeld(disk, {});
    assert Open(root, []) in [Open(root, [])];
    assert FilesIn([]) == {} && LinksIn([]) == {} && TreesIn([]) == {};
  }

  lemma TopDigest(stack: seq<Open>)
    requires stack != []
    ensures OpenDigests(stack) == OpenDigests(stack[..|stack| - 1]) + {stack[|stack| - 1].digest}
    ensures forall o :: o in stack[..|stack| - 1] ==> o in stack
  {
    assert stack == stack[..|stack| - 1] + [stack[|stack| - 1]];
  }

  lemma ListingPop(disk: Disk, root: Digest, objects: CanonicalObjects, next: CanonicalObjects, listed: seq<Visit>, path: Path, stack: seq<Open>)
    requires stack != [] && ListingOk(disk, root, objects, listed, [], path, stack)
    requires var top := stack[|stack| - 1];
      top.digest in disk.objects.trees && KeysOf(next) == Join2(KeysOf(objects), OnlyTree(top.digest))
    ensures var top := stack[|stack| - 1];
      ListingOk(disk, root, next, listed, disk.objects.trees[top.digest].entries, top.path, stack[..|stack| - 1])
  {
    hide UnfoldTree, ClosureOf, Accounted, OpenDigests, FilesIn, LinksIn, TreesIn, PartOf;
    PopStack(disk.objects.trees, root, listed, path, stack);
    TopDigest(stack);
  }

  lemma ListingTake(disk: Disk, root: Digest, objects: CanonicalObjects, next: CanonicalObjects, listed: seq<Visit>, left: seq<TreeEntry>, rest: seq<TreeEntry>, e: TreeEntry, path: Path, stack: seq<Open>)
    requires ListingOk(disk, root, objects, listed, left, path, stack)
    requires left == rest + [e] && e.name != [] && |path| < MAX_DEPTH
    requires KeysOf(next) == Join2(KeysOf(objects), RefersTo(e)) && MarksWithin(KeysOf(next), RootMarks(disk, root))
    ensures ListingOk(disk, root, next, listed + [Visit(path + [e.name], e)], rest, path, Push(stack, path, e))
  {
    hide UnfoldTree, ClosureOf, Accounted, OpenDigests, FilesIn, LinksIn, TreesIn, PartOf;
    var v := Visit(path + [e.name], e);
    TakePart(disk.objects.trees, root, listed, left, rest, e, path, stack);
    DigestsAppend(listed, v);
    OpenAppend(stack, path, e);
    assert v in listed + [v];
    VisitInClosure(disk.objects.trees, root, listed + [v], v);
  }

  lemma TakePart(trees: Trees, root: Digest, listed: seq<Visit>, left: seq<TreeEntry>, rest: seq<TreeEntry>, e: TreeEntry, path: Path, stack: seq<Open>)
    requires |path| <= MAX_DEPTH && Proper(path) && StackOk(stack) && e.name != [] && left == rest + [e]
    requires Accounted(trees, root, listed, left, path, stack)
    ensures PartOf(trees, root, listed + [Visit(path + [e.name], e)])
    ensures |path| < MAX_DEPTH ==>
      StackOk(Push(stack, path, e)) && Accounted(trees, root, listed + [Visit(path + [e.name], e)], rest, path, Push(stack, path, e))
  {
    hide UnfoldTree, Accounted, Push;
    TakeEntry(trees, root, listed, left, rest, e, path, stack);
  }

  lemma ListingEnd(disk: Disk, root: Digest, objects: CanonicalObjects, listed: seq<Visit>, path: Path)
    requires ListingOk(disk, root, objects, listed, [], path, []) && Held(disk, objects)
    ensures multiset(listed) == multiset(UnfoldTree(disk.objects.trees, root, [], 0))
    ensures KeysOf(objects) == RootMarks(disk, root)
    ensures ValidTree(objects, root) <==> ValidTree(disk.objects, root)
  {
    hide UnfoldTree, FilesIn, LinksIn, TreesIn, ValidTree, ClosureOf;
    var u := UnfoldTree(disk.objects.trees, root, [], 0);
    StackDone(disk.objects.trees, root, listed, path);
    SameMultiset(listed, u);
    SameDigests(listed, u);
    RootClosure(disk.objects.trees, root);
    assert OpenDigests([]) == {};
    assert RootMarks(disk, root) == LoadMarks(disk, {root}, {});
    ReadCopyAgrees(disk, objects, {root}, {});
  }

  /** Reads the directory on top of the stack. */
  method ReadDirectory(disk: Disk, budget: DecodeBudget, ghost root: Digest, ghost maxEntries: nat, objects: CanonicalObjects,
                       ghost listed: seq<Visit>, ghost path: Path, stack: seq<Open>)
    returns (ok: bool, next: CanonicalObjects)
    requires budget.Pays(disk, objects) && stack != [] && ListingOk(disk, root, objects, listed, [], path, stack)
    modifies budget
    ensures ok ==> budget.Pays(disk, next)
    ensures ok ==> stack[|stack| - 1].digest in disk.objects.trees
    ensures ok ==> ListingOk(disk, root, next, listed, disk.objects.trees[stack[|stack| - 1].digest].entries, stack[|stack| - 1].path, stack[..|stack| - 1])
    ensures !ok ==> !Inspectable(disk, root, maxEntries, budget.maximum)
  {
    hide UnfoldTree, Held, Readable, StoredBytes, Inspectable, ClosureOf, PartOf, Accounted, OpenDigests;
    var digest := stack[|stack| - 1].digest;
    TopDigest(stack);
    ok, next := InspectTree(disk, budget, objects, digest);
    if ok {
      ListingPop(disk, root, objects, next, listed, path, stack);
    } else {
      ReadRejected(disk, root, maxEntries, budget.maximum, KeysOf(objects), OnlyTree(digest));
    }
  }

  /** Lists one directory from its last entry to its first. */
  method ListDirectory(disk: Disk, budget: DecodeBudget, ghost root: Digest, maxEntries: nat, held: CanonicalObjects,
                       listing: seq<Visit>, path: Path, list: seq<TreeEntry>, open: seq<Open>, bytes: nat)
    returns (ok: bool, objects: CanonicalObjects, listed: seq<Visit>, stack: seq<Open>, fileBytes: nat)
    requires budget.Pays(disk, held) && ListingOk(disk, root, held, listing, list, path, open) && bytes == FileBytes(listing)
    requires forall i :: 0 <= i < |list| ==> list[i].name != []
    requires |listing| <= maxEntries
    modifies budget
    ensures ok ==> budget.Pays(disk, objects) && ListingOk(disk, root, objects, listed, [], path, stack)
    ensures ok ==> fileBytes == FileBytes(listed) && |listed| <= maxEntries
    ensures ok ==> |listed| > |listing| || (listed == listing && stack == open)
    ensures ok ==> Open(root, []) in open ==> Open(root, []) in stack
    ensures !ok ==> !Inspectable(disk, root, maxEntries, budget.maximum)
  {
    hide UnfoldTree, ListingOk, Held, Readable, StoredBytes, Inspectable, ClosureOf, PartOf, Accounted, Weigh;
    ok, objects, listed, stack, fileBytes := true, held, listing, open, bytes;
    var i := |list|;
    assert list[..i] == list;
    while i > 0
      invariant ok && 0 <= i <= |list|
      invariant budget.Pays(disk, objects) && ListingOk(disk, root, objects, listed, list[..i], path, stack)
      invariant fileBytes == FileBytes(listed) && |listed| <= maxEntries
      invariant |listed| == |listing| + |list| - i && (i == |list| ==> listed == listing && stack == open)
      invariant Open(root, []) in open ==> Open(root, []) in stack
    {
      i := i - 1;
      var e := list[i];
      var v := Visit(path + [e.name], e);
      assert list[..i + 1] == list[..i] + [e];
      ListingBounds(disk, root, objects, listed, list[..i + 1], path, stack);
      TakePart(disk.objects.trees, root, listed, list[..i + 1], list[..i], e, path, stack);
      ghost var before := objects;
      ok, objects, fileBytes := ListEntry(disk, budget, root, objects, listed, v, maxEntries, fileBytes);
      if !ok {
        return;
      }
      ListingTake(disk, root, before, objects, listed, list[..i + 1], list[..i], e, path, stack);
      listed := listed + [v];
      if e.kind.Directory? {
        stack := stack + [Open(e.kind.digest, v.path)];
      }
    }
    assert list[..i] == [];
  }

  lemma ListingBounds(disk: Disk, root: Digest, objects: CanonicalObjects, listed: seq<Visit>, left: seq<TreeEntry>, path: Path, stack: seq<Open>)
    requires ListingOk(disk, root, objects, listed, left, path, stack)
    ensures |path| <= MAX_DEPTH && Proper(path) && StackOk(stack) && Accounted(disk.objects.trees, root, listed, left, path, stack)
    ensures MarksWithin(KeysOf(objects), ClosureOf(disk.objects.trees, OnlyTree(root)))
    ensures |listed| <= |UnfoldTree(disk.objects.trees, root, [], 0)|
    ensures forall o :: o in stack && o.path == [] ==> o.digest == root
  {
    var u := UnfoldTree(disk.objects.trees, root, [], 0);
    assert multiset(u) == multiset(listed) + (multiset(u) - multiset(listed));
  }

  lemma HeldReadable(disk: Disk, objects: CanonicalObjects)
    requires Held(disk, objects)
    ensures Readable(disk, KeysOf(objects))
  {
  }

  /** Lists a whole tree.  Succeeds exactly when the tree is valid, readable and within the requested
      limits, and then lists every path of the unfolding once. */
  method ListTree(disk: Disk, root: Digest, maxEntries: nat, maxBytes: nat)
    returns (ok: bool, listed: seq<Visit>, rootMode: nat, decoded: nat)
    requires WellNamedTrees(disk.objects.trees)
    ensures ok <==> Inspectable(disk, root, maxEntries, maxBytes)
    ensures ok ==> multiset(listed) == multiset(UnfoldTree(disk.objects.trees, root, [], 0))
    ensures ok ==> root in disk.objects.trees && rootMode == disk.objects.trees[root].rootMode
    ensures ok ==> decoded == StoredBytes(disk, ClosureOf(disk.objects.trees, OnlyTree(root)))
  {
    hide UnfoldTree, ListingOk, Held, Readable, StoredBytes, ClosureOf, PartOf, Accounted, WellNamedTrees, ValidTree;
    var budget := new DecodeBudget(maxBytes);
    var objects, stack := NO_OBJECTS, [Open(root, [])];
    ghost var path: Path := [];
    listed, rootMode, decoded := [], 0, 0;
    var fileBytes := 0;
    ListingStart(disk, root);
    while stack != []
      invariant budget.Pays(disk, objects) && budget.maximum == maxBytes
      invariant ListingOk(disk, root, objects, listed, [], path, stack)
      invariant fileBytes == FileBytes(listed) && |listed| <= maxEntries
      invariant Open(root, []) in stack || (root in disk.objects.trees && rootMode == disk.objects.trees[root].rootMode)
      decreases |UnfoldTree(disk.objects.trees, root, [], 0)| - |listed|, |stack|
    {
      var top, rest := stack[|stack| - 1], stack[..|stack| - 1];
      assert stack == rest + [top];
      ListingBounds(disk, root, objects, listed, [], path, stack);
      ok, objects := ReadDirectory(disk, budget, root, maxEntries, objects, listed, path, stack);
      if !ok {
        return;
      }
      path := top.path;
      if top.path == [] {
        rootMode := disk.objects.trees[top.digest].rootMode;
      }
      EntriesNamed(disk.objects.trees, top.digest);
      ok, objects, listed, stack, fileBytes :=
        ListDirectory(disk, budget, root, maxEntries, objects, listed, top.path, disk.objects.trees[top.digest].entries, rest, fileBytes);
      if !ok {
        return;
      }
      ListingBounds(disk, root, objects, listed, [], path, stack);
    }
    ListingEnd(disk, root, objects, listed, path);
    SameMultiset(listed, UnfoldTree(disk.objects.trees, root, [], 0));
    var valid := TreeWalk.ValidateGraph(objects, root);
    ok, decoded := valid.Success?, budget.decoded;
    assert Readable(disk, KeysOf(objects)) by {
      HeldReadable(disk, objects);
    }
  }
}
