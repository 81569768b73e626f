/** What a sequence of archive entries builds.  It depends on which entries there are, not on their order. */
module ArchiveEntries {
  import opened Base
  import opened Text
  import opened Canonical
  import opened Ustar
  import opened ArchiveTree
  import CanonicalCodec

  type Hash = CanonicalCodec.Hash

  datatype Item =
    | FileItem(path: Path, mode: nat, content: Bytes)
    | DirectoryItem(path: Path, mode: nat)
    | LinkItem(path: Path, target: Bytes)

  predicate IsLeaf(x: Item) { !x.DirectoryItem? }

  function SizeOf(x: Item): nat { if x.FileItem? then |x.content| else 0 }

  /** Blocks that a file body takes. */
  function Blocks(n: nat): nat { (n + BLOCK_BYTES - 1) / BLOCK_BYTES }

  function WorkOf(x: Item): nat {
    1 + |x.path| + match x
      case FileItem(_, _, content) => Blocks(|content|)
      case DirectoryItem(_, _) => 0
      case LinkItem(_, target) => |Split(target)|
  }

  /** The canonical object that a leaf is stored as. */
  function EncodingOf(x: Item): Bytes {
    match x
    case FileItem(_, _, content) => if |content| <= MAX_FILE_BYTES then CanonicalCodec.EncodeFile(content) else []
    case DirectoryItem(_, _) => []
    case LinkItem(_, target) => if |target| <= CanonicalCodec.MAX_SYMLINK_BYTES then CanonicalCodec.EncodeSymlink(target) else []
  }

  function ItemShape(hash: Hash, x: Item): Shape {
    match x
    case FileItem(_, mode, content) => FileShape(mode, hash(EncodingOf(x)), |content|)
    case DirectoryItem(_, mode) => DirectoryShape(mode, true)
    case LinkItem(_, _) => LinkShape(hash(EncodingOf(x)))
  }

  // ----- One entry at a time

  /** The state of a decoder: its tree, the distinct objects, and what has been charged. */
  datatype Flat = Flat(nodes: Nodes, stored: set<Bytes>, expanded: nat, metadata: nat, objectBytes: nat, work: nat)

  const EMPTY := Flat(map[], {}, 0, 0, 0, 0)

  ghost function Parents(path: Path): set<Path> { set k | 1 <= k < |path| :: path[..k] }

  ghost predicate ParentsOk(nodes: Nodes, path: Path) {
    forall p :: p in Parents(path) && p in nodes ==> nodes[p].DirectoryShape?
  }

  ghost function WithParents(nodes: Nodes, path: Path): Nodes {
    map p | p in nodes.Keys + Parents(path) :: if p in nodes then nodes[p] else IMPLICIT
  }

  /** A place that an entry may take: free, or for a directory one that is only a parent so far. */
  ghost predicate Free(nodes: Nodes, x: Item) {
    x.path in nodes ==> !IsLeaf(x) && nodes[x.path].DirectoryShape? && !nodes[x.path].explicit
  }

  ghost predicate Collides(hash: Hash, stored: set<Bytes>, b: Bytes) { exists c :: c in stored && hash(c) == hash(b) && c != b }

  ghost predicate WithinLimits(limits: Limits, s: Flat) {
    && |s.nodes| <= limits.entries && s.expanded <= limits.expandedBytes && s.metadata <= limits.metadataBytes
    && s.objectBytes <= limits.objectBytes && s.work <= limits.workUnits
  }

  ghost predicate ItemOk(limits: Limits, x: Item) { x.path != [] && SizeOf(x) <= limits.fileBytes }

  ghost function After(hash: Hash, s: Flat, x: Item): Flat {
    Flat(WithParents(s.nodes, x.path)[x.path := ItemShape(hash, x)],
      if IsLeaf(x) then s.stored + {EncodingOf(x)} else s.stored,
      s.expanded + SizeOf(x), s.metadata + BLOCK_BYTES,
      s.objectBytes + (if IsLeaf(x) && EncodingOf(x) !in s.stored then |EncodingOf(x)| else 0),
      s.work + WorkOf(x))
  }

  ghost function Step(limits: Limits, hash: Hash, s: Flat, x: Item): Option<Flat> {
    if ItemOk(limits, x) && ParentsOk(s.nodes, x.path) && Free(s.nodes, x) && WithinLimits(limits, After(hash, s, x))
       && (IsLeaf(x) ==> !Collides(hash, s.stored, EncodingOf(x)))
    then Some(After(hash, s, x)) else None
  }

  ghost function Run(limits: Limits, hash: Hash, items: seq<Item>): Option<Flat> {
    if items == [] then Some(EMPTY) else
      var before := Run(limits, hash, items[..|items| - 1]);
      if before.None? then None else Step(limits, hash, before.value, items[|items| - 1])
  }

  // ----- All entries at once

  ghost function PathsOf(items: seq<Item>): set<Path> { set x | x in items :: x.path }

  /** Every path that is named, and every parent of one. */
  ghost function Touched(items: seq<Item>): set<Path> { PathsOf(items) + set x, p | x in items && p in Parents(x.path) :: p }

  ghost function ItemAt(items: seq<Item>, p: Path): Item
    requires p in PathsOf(items)
  {
    var x :| x in items && x.path == p;
    x
  }

  ghost function NodesOf(hash: Hash, items: seq<Item>): Nodes {
    map p | p in Touched(items) :: if p in PathsOf(items) then ItemShape(hash, ItemAt(items, p)) else IMPLICIT
  }

  ghost function Encodings(items: seq<Item>): set<Bytes> { set x | x in items && IsLeaf(x) :: EncodingOf(x) }

  ghost function LengthOf(b: Bytes): nat { |b| }

  /** The state that a collection of entries leads to. */
  ghost function Built(hash: Hash, items: seq<Item>): Flat {
    Flat(NodesOf(hash, items), Encodings(items), Weigh(items, SizeOf), BLOCK_BYTES * |items|, SumOver(Encodings(items), LengthOf), Weigh(items, WorkOf))
  }

  ghost predicate NothingBelowLeaves(items: seq<Item>) {
    forall x, y :: x in items && y in items && IsLeaf(x) ==> x.path !in Parents(y.path)
  }

  ghost predicate NoCollisions(hash: Hash, stored: set<Bytes>) {
    forall b :: b in stored ==> !Collides(hash, stored, b)
  }

  ghost predicate DistinctPaths(items: seq<Item>) { |PathsOf(items)| == |items| }

  /** When a collection of entries is accepted: distinct paths, nothing below a file or link, no two objects
      with one digest, and everything within the limits. */
  ghost predicate Acceptable(limits: Limits, hash: Hash, items: seq<Item>) {
    && (forall x :: x in items ==> ItemOk(limits, x))
    && DistinctPaths(items) && NothingBelowLeaves(items) && NoCollisions(hash, Encodings(items))
    && WithinLimits(limits, Built(hash, items))
  }

  lemma PathsMore(items: seq<Item>, x: Item)
    ensures PathsOf(items + [x]) == PathsOf(items) + {x.path}
    ensures Touched(items + [x]) == Touched(items) + {x.path} + Parents(x.path)
    ensures Encodings(items + [x]) == Encodings(items) + if IsLeaf(x) then {EncodingOf(x)} else {}
  {
    hide Parents, EncodingOf;
    var more := items + [x];
    assert forall y :: y in more <==> y in items || y == x;
  }

  lemma {:induction false} FewerPaths(items: seq<Item>)
    ensures |PathsOf(items)| <= |items|
  {
    hide PathsOf;
    if items == [] {
      NoPaths();
    } else {
      var last := |items| - 1;
      FewerPaths(items[..last]);
      PathsMore(items[..last], items[last]);
      assert items == items[..last] + [items[last]];
      var few, p := PathsOf(items[..last]), items[last].path;
      assert |few + {p}| <= |few| + 1;
    }
  }

  lemma NoPaths()
    ensures PathsOf([]) == {}
  {
  }

  lemma DistinctMore(items: seq<Item>, x: Item)
    ensures DistinctPaths(items + [x]) <==> DistinctPaths(items) && x.path !in PathsOf(items)
  {
    hide PathsOf;
    PathsMore(items, x);
    FewerPaths(items);
    if x.path in PathsOf(items) {
      assert PathsOf(items) + {x.path} == PathsOf(items);
    }
  }

  lemma {:induction false} OneItemPerPath(items: seq<Item>, x: Item, y: Item)
    requires DistinctPaths(items) && x in items && y in items && x.path == y.path
    ensures x == y
  {
    var last := |items| - 1;
    assert items == items[..last] + [items[last]];
    DistinctMore(items[..last], items[last]);
    assert forall z :: z in items[..last] ==> z.path in PathsOf(items[..last]);
    if x in items[..last] && y in items[..last] {
      OneItemPerPath(items[..last], x, y);
    }
  }

  lemma NodesMore(hash: Hash, items: seq<Item>, x: Item)
    requires DistinctPaths(items + [x])
    ensures NodesOf(hash, items + [x]) == WithParents(NodesOf(hash, items), x.path)[x.path := ItemShape(hash, x)]
  {
    hide Parents, ItemShape, DistinctPaths;
    var more := items + [x];
    PathsMore(items, x);
    DistinctMore(items, x);
    var a, b := NodesOf(hash, more), WithParents(NodesOf(hash, items), x.path)[x.path := ItemShape(hash, x)];
    assert x in more;
    forall p | p in a ensures a[p] == b[p] {
      if p in PathsOf(items) {
        assert ItemAt(items, p) in more && ItemAt(more, p) in more;
        OneItemPerPath(more, ItemAt(items, p), ItemAt(more, p));
      } else if p == x.path {
        OneItemPerPath(more, x, ItemAt(more, p));
      }
    }
    assert a.Keys == b.Keys;
  }

  lemma FreeMeans(hash: Hash, items: seq<Item>, x: Item)
    ensures Free(NodesOf(hash, items), x) <==> x.path !in PathsOf(items) && (IsLeaf(x) ==> x.path !in Touched(items))
  {
    hide Parents, Touched, PathsOf;
    var nodes := NodesOf(hash, items);
    TouchedPaths(items);
    if x.path in PathsOf(items) {
      assert nodes[x.path] == ItemShape(hash, ItemAt(items, x.path));
    }
  }

  lemma TouchedPaths(items: seq<Item>)
    ensures PathsOf(items) <= Touched(items)
  {
  }

  lemma ParentsMean(hash: Hash, items: seq<Item>, path: Path)
    requires DistinctPaths(items)
    ensures ParentsOk(NodesOf(hash, items), path) <==> forall x :: x in items && IsLeaf(x) ==> x.path !in Parents(path)
  {
    hide Parents, DistinctPaths;
    var nodes := NodesOf(hash, items);
    forall x | x in items ensures x.path in nodes && nodes[x.path] == ItemShape(hash, x) {
      OneItemPerPath(items, x, ItemAt(items, x.path));
    }
    if forall x :: x in items && IsLeaf(x) ==> x.path !in Parents(path) {
      forall p | p in Parents(path) && p in nodes ensures nodes[p].DirectoryShape? {
        if p in PathsOf(items) {
          var x := ItemAt(items, p);
          assert !IsLeaf(x);
        }
      }
    }
  }

  lemma LeavesMore(items: seq<Item>, x: Item)
    requires NothingBelowLeaves(items)
    ensures NothingBelowLeaves(items + [x]) <==>
      (IsLeaf(x) ==> forall y :: y in items ==> x.path !in Parents(y.path))
      && (forall y :: y in items && IsLeaf(y) ==> y.path !in Parents(x.path))
  {
    hide IsLeaf;
    var more := items + [x];
    assert forall y :: y in more <==> y in items || y == x;
    assert x in more && x.path !in Parents(x.path);
  }

  lemma CollisionsMore(hash: Hash, stored: set<Bytes>, b: Bytes)
    ensures NoCollisions(hash, stored + {b}) <==> NoCollisions(hash, stored) && !Collides(hash, stored, b)
  {
    var more := stored + {b};
    if NoCollisions(hash, more) {
      forall c | c in stored ensures !Collides(hash, stored, c) {
        assert c in more && !Collides(hash, more, c);
      }
      assert b in more && !Collides(hash, more, b);
    }
    if NoCollisions(hash, stored) && !Collides(hash, stored, b) {
      forall c | c in more ensures !Collides(hash, more, c) {
        assert c in stored ==> !Collides(hash, stored, c);
      }
    }
  }

  lemma SumsMore(items: seq<Item>, x: Item)
    ensures Weigh(items + [x], SizeOf) == Weigh(items, SizeOf) + SizeOf(x)
    ensures Weigh(items + [x], WorkOf) == Weigh(items, WorkOf) + WorkOf(x)
    ensures SumOver(Encodings(items + [x]), LengthOf)
         == SumOver(Encodings(items), LengthOf) + if IsLeaf(x) && EncodingOf(x) !in Encodings(items) then |EncodingOf(x)| else 0
  {
    hide EncodingOf, WorkOf, SizeOf, Encodings;
    WeighAppend(items, [x], SizeOf);
    WeighAppend(items, [x], WorkOf);
    assert [x][1..] == [];
    PathsMore(items, x);
    var stored, b := Encodings(items), EncodingOf(x);
    if IsLeaf(x) {
      if b in stored {
        assert stored + {b} == stored;
      } else {
        SumOverRemove(stored + {b}, LengthOf, b);
        assert stored + {b} - {b} == stored;
      }
    } else {
      assert stored + {} == stored;
    }
  }

  /** One more entry, provided its path is new. */
  lemma BuiltMore(hash: Hash, items: seq<Item>, x: Item)
    requires DistinctPaths(items + [x])
    ensures Built(hash, items + [x]) == After(hash, Built(hash, items), x)
  {
    hide NodesOf, Encodings, EncodingOf, WorkOf, SizeOf, WithParents, ItemShape, DistinctPaths;
    NodesMore(hash, items, x);
    SumsMore(items, x);
    PathsMore(items, x);
  }

  lemma NodesGrow(hash: Hash, items: seq<Item>, x: Item)
    ensures |NodesOf(hash, items)| <= |NodesOf(hash, items + [x])|
  {
    hide Touched;
    PathsMore(items, x);
    var a, b := NodesOf(hash, items).Keys, NodesOf(hash, items + [x]).Keys;
    assert a == Touched(items) && b == Touched(items + [x]);
    assert b == a + (b - a);
  }

  lemma AcceptableBefore(limits: Limits, hash: Hash, items: seq<Item>, x: Item)
    requires Acceptable(limits, hash, items + [x])
    ensures Acceptable(limits, hash, items) && ItemOk(limits, x)
  {
    hide NodesOf, Encodings, EncodingOf, WorkOf, SizeOf, Parents, DistinctPaths, NoCollisions, ItemOk;
    assert forall y :: y in items + [x] <==> y in items || y == x;
    DistinctMore(items, x);
    PathsMore(items, x);
    SumsMore(items, x);
    NodesGrow(hash, items, x);
    CollisionsMore(hash, Encodings(items), EncodingOf(x));
    assert Encodings(items) + {} == Encodings(items);
  }

  lemma StepIsAcceptance(limits: Limits, hash: Hash, items: seq<Item>, x: Item)
    requires Acceptable(limits, hash, items)
    ensures Step(limits, hash, Built(hash, items), x).Some? <==> Acceptable(limits, hash, items + [x])
    ensures Step(limits, hash, Built(hash, items), x).Some? ==> Step(limits, hash, Built(hash, items), x).value == Built(hash, items + [x])
  {
    hide NodesOf, Encodings, EncodingOf, WorkOf, SizeOf, DistinctPaths, NoCollisions, ItemOk, Collides, NothingBelowLeaves, ParentsOk, Free, After, Built, Parents;
    var s, more := Built(hash, items), items + [x];
    assert forall y :: y in more <==> y in items || y == x;
    assert s.nodes == NodesOf(hash, items) && s.stored == Encodings(items) by { BuiltParts(hash, items); }
    DistinctMore(items, x);
    FreeMeans(hash, items, x);
    ParentsMean(hash, items, x.path);
    LeavesMore(items, x);
    PathsMore(items, x);
    CollisionsMore(hash, Encodings(items), EncodingOf(x));
    assert Encodings(items) + {} == Encodings(items);
    LeafFree(items, x);
    if DistinctPaths(more) {
      BuiltMore(hash, items, x);
    }
  }

  lemma BuiltParts(hash: Hash, items: seq<Item>)
    ensures Built(hash, items).nodes == NodesOf(hash, items) && Built(hash, items).stored == Encodings(items)
  {
  }

  lemma LeafFree(items: seq<Item>, x: Item)
    ensures x.path !in PathsOf(items) ==> (x.path !in Touched(items) <==> forall y :: y in items ==> x.path !in Parents(y.path))
  {
    hide Parents;
  }

  /** Entry by entry, a decoder accepts exactly the acceptable collections and builds what they describe. */
  lemma {:induction false} RunIsAcceptance(limits: Limits, hash: Hash, items: seq<Item>)
    ensures Run(limits, hash, items).Some? <==> Acceptable(limits, hash, items)
    ensures Run(limits, hash, items).Some? ==> Run(limits, hash, items).value == Built(hash, items)
  {
    hide Acceptable, Built, Step;
    if items == [] {
      NothingBuilt(limits, hash);
    } else {
      var last := |items| - 1;
      assert items == items[..last] + [items[last]];
      RunIsAcceptance(limits, hash, items[..last]);
      if Acceptable(limits, hash, items[..last]) {
        StepIsAcceptance(limits, hash, items[..last], items[last]);
      } else if Acceptable(limits, hash, items) {
        AcceptableBefore(limits, hash, items[..last], items[last]);
      }
    }
  }

  lemma NothingBuilt(limits: Limits, hash: Hash)
    ensures Acceptable(limits, hash, []) && Built(hash, []) == EMPTY
  {
    assert PathsOf([]) == {} && Touched([]) == {} && Encodings([]) == {};
  }

  // ----- Order does not matter

  lemma SameWeight(a: seq<Item>, b: seq<Item>, weight: Item -> nat)
    requires multiset(a) == multiset(b)
    ensures Weigh(a, weight) == Weigh(b, weight)
  {
    WeighMonotone(a, b, weight);
    WeighMonotone(b, a, weight);
  }

  lemma SameSets(a: seq<Item>, b: seq<Item>)
    requires multiset(a) == multiset(b)
    ensures |a| == |b| && forall x :: x in a <==> x in b
    ensures PathsOf(a) == PathsOf(b) && Touched(a) == Touched(b) && Encodings(a) == Encodings(b)
  {
    hide Parents, EncodingOf;
    assert |a| == |multiset(a)| == |multiset(b)| == |b|;
    forall x ensures x in a <==> x in b {
      assert x in a <==> x in multiset(a);
      assert x in b <==> x in multiset(b);
    }
  }

  lemma SameNodes(hash: Hash, a: seq<Item>, b: seq<Item>)
    requires multiset(a) == multiset(b) && DistinctPaths(a)
    ensures NodesOf(hash, a) == NodesOf(hash, b)
  {
    hide Parents, ItemShape, DistinctPaths, Touched;
    SameSets(a, b);
    forall p | p in PathsOf(a) ensures ItemAt(a, p) == ItemAt(b, p) {
      OneItemPerPath(a, ItemAt(a, p), ItemAt(b, p));
    }
  }

  /** Any permutation of an accepted sequence is accepted with the same tree, modes, objects and counters. */
  lemma OrderDoesNotMatter(limits: Limits, hash: Hash, a: seq<Item>, b: seq<Item>)
    requires multiset(a) == multiset(b)
    ensures Run(limits, hash, a) == Run(limits, hash, b)
  {
    hide Run, NodesOf, Encodings, NoCollisions, ItemOk, WorkOf, SizeOf, PathsOf;
    RunIsAcceptance(limits, hash, a);
    RunIsAcceptance(limits, hash, b);
    SameSets(a, b);
    SameWeight(a, b, SizeOf);
    SameWeight(a, b, WorkOf);
    if DistinctPaths(a) {
      SameNodes(hash, a, b);
    }
  }

  // ----- Listing a tree

  /** A tree as a flat map: parents are directories, and every directory is named. */
  ghost predicate IsTree(nodes: Nodes) {
    [] !in nodes
    && forall p, k :: p in nodes && 1 <= k < |p| ==> p[..k] in nodes && nodes[p[..k]].DirectoryShape?
  }

  /** One entry for every node. */
  ghost predicate Lists(hash: Hash, items: seq<Item>, nodes: Nodes) {
    DistinctPaths(items) && PathsOf(items) == nodes.Keys && forall x :: x in items ==> ItemShape(hash, x) == nodes[x.path]
  }

  /** Entries that list a tree, in any order, build that tree. */
  lemma ListingBuildsTree(hash: Hash, items: seq<Item>, nodes: Nodes)
    requires IsTree(nodes) && Lists(hash, items, nodes)
    ensures NodesOf(hash, items) == nodes && NothingBelowLeaves(items)
  {
    hide DistinctPaths, ItemShape;
    forall x, p | x in items && p in Parents(x.path) ensures p in nodes && nodes[p].DirectoryShape? {
      var k :| 1 <= k < |x.path| && p == x.path[..k];
      assert x.path in nodes;
    }
    assert Touched(items) == nodes.Keys;
    forall x | x in items && nodes[x.path].DirectoryShape? ensures !IsLeaf(x) {
      ShapeOfLeaf(hash, x);
    }
  }

  lemma ShapeOfLeaf(hash: Hash, x: Item)
    ensures ItemShape(hash, x).DirectoryShape? <==> !IsLeaf(x)
  {
  }
}
