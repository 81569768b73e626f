/** Writing a tree as an archive and reading it back, with limits on the tree itself. */
module ArchiveRoundTrip {
  import opened Base
  import opened Text
  import opened Canonical
  import opened Ustar
  import opened ArchiveTree
  import opened ArchiveEntries
  import opened ArchiveFormat

  datatype Source =
    | SourceFile(mode: nat, content: Bytes)
    | SourceDirectory(mode: nat)
    | SourceLink(target: Bytes)

  type SourceTree = map<Path, Source>

  /** Every node stands in a directory of the tree, or at its top. */
  ghost predicate IsSource(tree: SourceTree) {
    [] !in tree && forall p, k :: p in tree && 1 <= k < |p| ==> p[..k] in tree && tree[p[..k]].SourceDirectory?
  }

  function ItemFor(p: Path, x: Source): Item {
    match x
    case SourceFile(mode, content) => FileItem(p, mode, content)
    case SourceDirectory(mode) => DirectoryItem(p, mode)
    case SourceLink(target) => LinkItem(p, target)
  }

  function HeaderFor(p: Path, x: Source): Header {
    match x
    case SourceFile(mode, content) => Header(p, mode, |content|, FileKind)
    case SourceDirectory(mode) => Header(p, mode, 0, DirectoryKind)
    case SourceLink(target) => Header(p, SYMLINK_MODE, 0, LinkKind(target))
  }

  function ContentOf(x: Source): Bytes { if x.SourceFile? then x.content else [] }

  const NO_OWNER := Ignored(0, 0, 0, [], [])

  /** The path splits into the two fields of a header, and the node fits the others. */
  ghost predicate Spelled(limits: Limits, p: Path, x: Source, prefix: Bytes, name: Bytes) {
    Writable(limits, HeaderFor(p, x), prefix, name, NO_OWNER)
  }

  ghost predicate CanBeSpelled(limits: Limits, p: Path, x: Source) { exists prefix, name :: Spelled(limits, p, x, prefix, name) }

  ghost function WeightAt(tree: SourceTree, weight: Item -> nat, p: Path): nat { if p in tree then weight(ItemFor(p, tree[p])) else 0 }

  /** A total over the nodes of a tree. */
  ghost function TotalOf(tree: SourceTree, weight: Item -> nat): nat {
    SumOver(tree.Keys, (p: Path) => WeightAt(tree, weight, p))
  }

  ghost function ObjectsOf(tree: SourceTree): set<Bytes> {
    set p | p in tree && IsLeaf(ItemFor(p, tree[p])) :: EncodingOf(ItemFor(p, tree[p]))
  }

  ghost function ShapesOf(hash: Hash, tree: SourceTree): Nodes { map p | p in tree :: ItemShape(hash, ItemFor(p, tree[p])) }

  /** The limits as they apply to a tree; the two last blocks of the archive count as well. */
  ghost predicate TreeWithin(limits: Limits, hash: Hash, tree: SourceTree) {
    && |tree| <= limits.entries
    && (forall p :: p in tree ==> SizeOf(ItemFor(p, tree[p])) <= limits.fileBytes)
    && TotalOf(tree, SizeOf) <= limits.expandedBytes
    && BLOCK_BYTES * (|tree| + 2) <= limits.metadataBytes
    && TotalOf(tree, WorkOf) + 2 <= limits.workUnits
    && SumOver(ObjectsOf(tree), LengthOf) <= limits.objectBytes
    && NoCollisions(hash, ObjectsOf(tree))
  }

  /** Items that list a tree: one for every node. */
  ghost predicate ItemsList(items: seq<Item>, tree: SourceTree) {
    DistinctPaths(items) && PathsOf(items) == tree.Keys && forall x :: x in items ==> x.path in tree && x == ItemFor(x.path, tree[x.path])
  }

  lemma {:induction false} TotalOfItems(items: seq<Item>, tree: SourceTree, weight: Item -> nat)
    requires DistinctPaths(items) && forall x :: x in items ==> x.path in tree && x == ItemFor(x.path, tree[x.path])
    ensures Weigh(items, weight) == SumOver(PathsOf(items), (p: Path) => WeightAt(tree, weight, p))
  {
    hide DistinctPaths, PathsOf;
    if items == [] {
      NoPaths();
    } else {
      var last := |items| - 1;
      var few, x := items[..last], items[last];
      assert items == few + [x];
      DistinctMore(few, x);
      PathsMore(few, x);
      TotalOfItems(few, tree, weight);
      WeighAppend(few, [x], weight);
      assert [x][1..] == [];
      SumOverRemove(PathsOf(items), (p: Path) => WeightAt(tree, weight, p), x.path);
      assert PathsOf(items) - {x.path} == PathsOf(few);
    }
  }

  lemma ObjectsOfItems(items: seq<Item>, tree: SourceTree)
    requires ItemsList(items, tree)
    ensures Encodings(items) == ObjectsOf(tree)
  {
    hide EncodingOf, DistinctPaths;
    forall p | p in tree ensures ItemFor(p, tree[p]) in items {
      assert p in PathsOf(items);
      var x :| x in items && x.path == p;
    }
  }

  lemma ItemsShape(hash: Hash, items: seq<Item>, tree: SourceTree)
    requires IsSource(tree) && ItemsList(items, tree)
    ensures IsTree(ShapesOf(hash, tree)) && Lists(hash, items, ShapesOf(hash, tree))
  {
    hide DistinctPaths, EncodingOf;
  }

  /** A tree within the limits makes an acceptable collection of entries. */
  lemma TreeAcceptable(limits: Limits, hash: Hash, items: seq<Item>, tree: SourceTree)
    requires IsSource(tree) && TreeWithin(limits, hash, tree) && ItemsList(items, tree)
    ensures Acceptable(limits, hash, items) && Finish(limits, Some(Built(hash, items))).Some?
    ensures NodesOf(hash, items) == ShapesOf(hash, tree)
  {
    hide PathsOf, NodesOf, Encodings, EncodingOf, WorkOf, SizeOf, NothingBelowLeaves, NoCollisions, ShapesOf, ObjectsOf, IsTree, Lists;
    ItemsShape(hash, items, tree);
    ListingBuildsTree(hash, items, ShapesOf(hash, tree));
    ObjectsOfItems(items, tree);
    TotalOfItems(items, tree, SizeOf);
    TotalOfItems(items, tree, WorkOf);
    ShapesCount(hash, tree);
    assert |items| == |tree|;
    forall x | x in items ensures ItemOk(limits, x) {
    }
  }

  lemma ShapesCount(hash: Hash, tree: SourceTree)
    ensures |ShapesOf(hash, tree)| == |tree|
  {
    hide ItemShape;
    assert ShapesOf(hash, tree).Keys == tree.Keys;
  }

  // ----- The archive of a tree

  /** A written archive that lists a tree, in any order and with any ignored fields. */
  ghost predicate Writes(limits: Limits, list: seq<Written>, tree: SourceTree) {
    (forall i :: 0 <= i < |list| ==> WrittenOk(limits, list[i])) && ItemsList(ItemsOf(list), tree)
  }

  /** Every tree within the limits is read back from every archive that lists it. */
  lemma TreeReadBack(limits: Limits, hash: Hash, list: seq<Written>, tree: SourceTree)
    requires IsSource(tree) && TreeWithin(limits, hash, tree) && Writes(limits, list, tree)
    ensures var decoded := Parse(limits, hash, EncodeArchive(limits, list));
      decoded.Some? && decoded.value.nodes == ShapesOf(hash, tree) && decoded.value.stored == ObjectsOf(tree)
  {
    hide Parse, EncodeArchive, Acceptable, Built, TreeWithin, IsSource, ShapesOf, ObjectsOf, Lists, IsTree, WrittenOk;
    TreeAcceptable(limits, hash, ItemsOf(list), tree);
    ItemsShape(hash, ItemsOf(list), tree);
    ObjectsOfItems(ItemsOf(list), tree);
    ArchiveFormat.ArchiveRoundTrip(limits, hash, list, ShapesOf(hash, tree));
  }

  lemma WrittenItem(limits: Limits, p: Path, x: Source) returns (w: Written)
    requires CanBeSpelled(limits, p, x)
    ensures WrittenOk(limits, w) && ItemOf(w.header, w.content) == ItemFor(p, x)
  {
    hide Writable;
    var prefix, name :| Spelled(limits, p, x, prefix, name);
    w := Written(HeaderFor(p, x), ContentOf(x), prefix, name, NO_OWNER);
  }

  lemma ItemsOfMore(list: seq<Written>, w: Written)
    ensures ItemsOf(list + [w]) == ItemsOf(list) + [ItemOf(w.header, w.content)]
  {
  }

  lemma {:induction false} WriteSome(limits: Limits, tree: SourceTree, paths: set<Path>) returns (list: seq<Written>)
    requires paths <= tree.Keys && forall p :: p in tree ==> CanBeSpelled(limits, p, tree[p])
    ensures (forall i :: 0 <= i < |list| ==> WrittenOk(limits, list[i])) && DistinctPaths(ItemsOf(list)) && PathsOf(ItemsOf(list)) == paths
    ensures forall x :: x in ItemsOf(list) ==> x.path in tree && x == ItemFor(x.path, tree[x.path])
  {
    hide CanBeSpelled, WrittenOk, PathsOf, DistinctPaths, ItemsOf;
    if paths == {} {
      list := [];
      NothingWritten();
    } else {
      var p :| p in paths;
      var rest := WriteSome(limits, tree, paths - {p});
      var w := WrittenItem(limits, p, tree[p]);
      list := rest + [w];
      ItemsOfMore(rest, w);
      PathsMore(ItemsOf(rest), ItemOf(w.header, w.content));
      DistinctMore(ItemsOf(rest), ItemOf(w.header, w.content));
    }
  }

  lemma NothingWritten()
    ensures ItemsOf([]) == [] && PathsOf([]) == {} && DistinctPaths([])
  {
  }

  /** Every tree within the limits whose paths split into the two fields can be written, and is read back. */
  lemma TreeRoundTrip(limits: Limits, hash: Hash, tree: SourceTree) returns (list: seq<Written>)
    requires IsSource(tree) && TreeWithin(limits, hash, tree) && forall p :: p in tree ==> CanBeSpelled(limits, p, tree[p])
    ensures Writes(limits, list, tree)
    ensures var decoded := Parse(limits, hash, EncodeArchive(limits, list));
      decoded.Some? && decoded.value.nodes == ShapesOf(hash, tree) && decoded.value.stored == ObjectsOf(tree)
  {
    hide Parse, EncodeArchive, TreeWithin, IsSource, CanBeSpelled, ShapesOf, ObjectsOf, WrittenOk;
    list := WriteSome(limits, tree, tree.Keys);
    TreeReadBack(limits, hash, list, tree);
  }
}
