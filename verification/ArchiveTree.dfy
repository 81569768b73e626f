/** The directory tree that an archive builds entry by entry, with parents that no entry names, as nested nodes
    and as a flat map from paths. */
module ArchiveTree {
  import opened Base
  import opened Text

  const IMPLICIT_MODE: nat := 0x1ED

  datatype DirectoryNode = DirectoryNode(mode: nat, explicit: bool, children: map<Segment, Node>)

  datatype Node =
    | FileNode(mode: nat, digest: Digest, byteLen: nat)
    | DirectoryEntry(directory: DirectoryNode)
    | LinkNode(digest: Digest)

  const ROOT := DirectoryNode(IMPLICIT_MODE, true, map[])
  const IMPLICIT_DIRECTORY := DirectoryEntry(DirectoryNode(IMPLICIT_MODE, false, map[]))

  /** A node without what is below it. */
  datatype Shape =
    | FileShape(mode: nat, digest: Digest, byteLen: nat)
    | DirectoryShape(mode: nat, explicit: bool)
    | LinkShape(digest: Digest)

  const IMPLICIT := DirectoryShape(IMPLICIT_MODE, false)

  function ShapeOf(n: Node): Shape {
    match n
    case FileNode(mode, digest, byteLen) => FileShape(mode, digest, byteLen)
    case DirectoryEntry(d) => DirectoryShape(d.mode, d.explicit)
    case LinkNode(digest) => LinkShape(digest)
  }

  function Find(dir: DirectoryNode, path: Path): Option<Node>
    decreases |path|
  {
    if path == [] || path[0] !in dir.children then None
    else if |path| == 1 then Some(dir.children[path[0]])
    else match dir.children[path[0]]
      case DirectoryEntry(d) => Find(d, path[1..])
      case _ => None
  }

  predicate IsDirectory(dir: DirectoryNode, path: Path) { path == [] || (Find(dir, path).Some? && Find(dir, path).value.DirectoryEntry?) }

  function Parent(path: Path): Path
    requires path != []
  {
    path[..|path| - 1]
  }

  lemma DirectoryBelow(dir: DirectoryNode, path: Path)
    requires path != [] && IsDirectory(dir, path)
    ensures path[0] in dir.children && dir.children[path[0]].DirectoryEntry? && IsDirectory(dir.children[path[0]].directory, path[1..])
  {
  }

  /** Puts a node at a path whose parent is a directory. */
  function PlaceAt(dir: DirectoryNode, path: Path, n: Node): DirectoryNode
    requires path != [] && IsDirectory(dir, Parent(path))
    decreases |path|
  {
    if |path| == 1 then dir.(children := dir.children[path[0] := n]) else
      DirectoryBelow(dir, Parent(path));
      assert Parent(path)[1..] == Parent(path[1..]);
      var child := dir.children[path[0]].directory;
      dir.(children := dir.children[path[0] := DirectoryEntry(PlaceAt(child, path[1..], n))])
  }

  function FindBelow(n: Node, path: Path): Option<Node> { if n.DirectoryEntry? then Find(n.directory, path) else None }

  function SameShape(a: Option<Node>, b: Option<Node>): bool { a.Some? == b.Some? && (a.Some? ==> ShapeOf(a.value) == ShapeOf(b.value)) }

  lemma PlacedAtTop(dir: DirectoryNode, path: Path, n: Node, q: Path)
    requires |path| == 1 && IsDirectory(dir, Parent(path)) && q != []
    ensures var after := Find(PlaceAt(dir, path, n), q);
      if q == path then after == Some(n)
      else if IsPrefix(path, q) then after == FindBelow(n, q[|path|..])
      else SameShape(after, Find(dir, q))
  {
    assert q[0] == path[0] && |q| > 1 ==> q[..1] == path;
    assert q[0] == path[0] && |q| == 1 ==> q == path;
  }

  lemma PlacedDeeper(dir: DirectoryNode, path: Path, n: Node, q: Path)
    requires |path| > 1 && IsDirectory(dir, Parent(path)) && q != []
    ensures path[0] in dir.children && dir.children[path[0]].DirectoryEntry?
    ensures IsDirectory(dir.children[path[0]].directory, Parent(path[1..]))
    ensures var after, child := PlaceAt(dir, path, n), dir.children[path[0]].directory;
      if q[0] == path[0] && |q| > 1 then
        Find(after, q) == Find(PlaceAt(child, path[1..], n), q[1..]) && Find(dir, q) == Find(child, q[1..])
      else q != path && !IsPrefix(path, q) && SameShape(Find(after, q), Find(dir, q))
  {
    DirectoryBelow(dir, Parent(path));
    assert Parent(path)[1..] == Parent(path[1..]);
  }

  /** What placing a node changes: the node itself and what is below it, and nothing else. */
  lemma {:induction false} PlacedAt(dir: DirectoryNode, path: Path, n: Node, q: Path)
    requires path != [] && IsDirectory(dir, Parent(path)) && q != []
    ensures var after := Find(PlaceAt(dir, path, n), q);
      if q == path then after == Some(n)
      else if IsPrefix(path, q) then after == FindBelow(n, q[|path|..])
      else SameShape(after, Find(dir, q))
    decreases |path|
  {
    hide IsDirectory;
    if |path| == 1 {
      PlacedAtTop(dir, path, n, q);
    } else {
      PlacedDeeper(dir, path, n, q);
      if q[0] == path[0] && |q| > 1 {
        hide Find, PlaceAt;
        PlacedAt(dir.children[path[0]].directory, path[1..], n, q[1..]);
        assert q == [q[0]] + q[1..] && path == [path[0]] + path[1..];
        assert IsPrefix(path, q) <==> IsPrefix(path[1..], q[1..]);
        assert IsPrefix(path, q) ==> q[1..][|path| - 1..] == q[|path|..];
      }
    }
  }

  /** Everything above a node is a directory. */
  lemma {:induction false} DirectoriesAbove(dir: DirectoryNode, q: Path, k: nat)
    requires Find(dir, q).Some? && k < |q|
    ensures IsDirectory(dir, q[..k])
    decreases k
  {
    if k > 0 {
      DirectoriesAbove(dir.children[q[0]].directory, q[1..], k - 1);
      assert q[..k][1..] == q[1..][..k - 1];
    }
  }

  // ----- The flat view

  type Nodes = map<Path, Shape>

  /** The tree below `dir` has exactly these nodes. */
  ghost predicate Shows(dir: DirectoryNode, nodes: Nodes) {
    [] !in nodes && forall p {:trigger Find(dir, p)} :: p != [] ==>
      (p in nodes <==> Find(dir, p).Some?) && (p in nodes ==> nodes[p] == ShapeOf(Find(dir, p).value))
  }

  lemma NothingShown()
    ensures Shows(ROOT, map[])
  {
  }

  lemma ShownDirectory(dir: DirectoryNode, nodes: Nodes, path: Path)
    requires Shows(dir, nodes)
    ensures IsDirectory(dir, path) <==> path == [] || (path in nodes && nodes[path].DirectoryShape?)
  {
  }

  /** A new leaf or an empty directory adds one node. */
  lemma PlacedFresh(dir: DirectoryNode, nodes: Nodes, path: Path, n: Node)
    requires Shows(dir, nodes) && path != [] && path !in nodes && IsDirectory(dir, Parent(path))
    requires n.DirectoryEntry? ==> n.directory.children == map[]
    ensures Shows(PlaceAt(dir, path, n), nodes[path := ShapeOf(n)])
  {
    var after, more := PlaceAt(dir, path, n), nodes[path := ShapeOf(n)];
    forall q {:trigger Find(after, q)} | q != []
      ensures (q in more <==> Find(after, q).Some?) && (q in more ==> more[q] == ShapeOf(Find(after, q).value))
    {
      PlacedAt(dir, path, n, q);
      if IsPrefix(path, q) && q != path {
        assert Find(dir, q).None? by {
          if Find(dir, q).Some? {
            DirectoriesAbove(dir, q, |path|);
          }
        }
        assert FindBelow(n, q[|path|..]).None?;
      }
    }
  }

  /** Naming a directory that was there as a parent changes its mode only. */
  lemma PlacedExplicit(dir: DirectoryNode, nodes: Nodes, path: Path, mode: nat)
    requires Shows(dir, nodes) && path in nodes && nodes[path].DirectoryShape?
    ensures IsDirectory(dir, path) && IsDirectory(dir, Parent(path))
    ensures Shows(PlaceAt(dir, path, DirectoryEntry(Find(dir, path).value.directory.(mode := mode, explicit := true))), nodes[path := DirectoryShape(mode, true)])
  {
    assert Find(dir, path).Some?;
    DirectoriesAbove(dir, path, |path| - 1);
    var n := DirectoryEntry(Find(dir, path).value.directory.(mode := mode, explicit := true));
    var after, more := PlaceAt(dir, path, n), nodes[path := DirectoryShape(mode, true)];
    forall q {:trigger Find(after, q)} | q != []
      ensures (q in more <==> Find(after, q).Some?) && (q in more ==> more[q] == ShapeOf(Find(after, q).value))
    {
      PlacedAt(dir, path, n, q);
      if IsPrefix(path, q) && q != path {
        FindThrough(dir, path, q);
        SameChildren(n.directory, Find(dir, path).value.directory, q[|path|..]);
      }
    }
  }

  lemma SameChildren(a: DirectoryNode, b: DirectoryNode, p: Path)
    requires a.children == b.children
    ensures Find(a, p) == Find(b, p)
  {
  }

  lemma {:induction false} FindThrough(dir: DirectoryNode, path: Path, q: Path)
    requires path != [] && IsDirectory(dir, path) && IsPrefix(path, q) && q != path
    ensures Find(dir, q) == Find(Find(dir, path).value.directory, q[|path|..])
    decreases |path|
  {
    assert q[0] == path[0];
    if |path| > 1 {
      DirectoryBelow(dir, path);
      assert IsPrefix(path[1..], q[1..]);
      FindThrough(dir.children[path[0]].directory, path[1..], q[1..]);
      assert q[1..][|path| - 1..] == q[|path|..];
    }
  }

  /** Two trees that show the same nodes are the same tree. */
  lemma {:induction false} SameTree(a: DirectoryNode, b: DirectoryNode, nodes: Nodes, other: Nodes, height: nat)
    requires Shows(a, nodes) && Shows(b, other) && nodes == other
    requires a.mode == b.mode && a.explicit == b.explicit
    requires forall p :: p in nodes ==> |p| <= height
    ensures a == b
    decreases height
  {
    forall name ensures (name in a.children <==> name in b.children) && (name in a.children ==> a.children[name] == b.children[name]) {
      assert Find(a, [name]).Some? <==> name in a.children;
      assert Find(b, [name]).Some? <==> name in b.children;
      if name in a.children {
        assert [name] in nodes && name in b.children;
        var x, y := a.children[name], b.children[name];
        assert ShapeOf(x) == nodes[[name]] == ShapeOf(y);
        if x.DirectoryEntry? {
          Below(a, nodes, name);
          Below(b, other, name);
          SameTree(x.directory, y.directory, Under(nodes, name), Under(other, name), height - 1);
        }
      }
    }
    assert a.children == b.children;
  }

  ghost function Under(nodes: Nodes, name: Segment): Nodes {
    map q | q in (set p | p in nodes && |p| > 1 && p[0] == name :: p[1..]) && [name] + q in nodes :: nodes[[name] + q]
  }

  lemma Below(dir: DirectoryNode, nodes: Nodes, name: Segment)
    requires Shows(dir, nodes) && name in dir.children && dir.children[name].DirectoryEntry?
    ensures Shows(dir.children[name].directory, Under(nodes, name))
  {
    var child, under := dir.children[name].directory, Under(nodes, name);
    forall q {:trigger Find(child, q)} | q != []
      ensures (q in under <==> Find(child, q).Some?) && (q in under ==> under[q] == ShapeOf(Find(child, q).value))
    {
      var p := [name] + q;
      assert p[1..] == q && Find(dir, p) == Find(child, q);
    }
  }
}
