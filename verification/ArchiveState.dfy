/** The decoder's state as it changes: nested directories filled in place, objects by digest, and counters
    charged against the limits. */
module ArchiveState {
  import opened Base
  import opened Text
  import opened Canonical
  import opened Ustar
  import opened ArchiveTree
  import opened ArchiveEntries

  /** The objects by digest are exactly the stored ones. */
  ghost predicate Indexes(hash: Hash, objects: map<Digest, Bytes>, stored: set<Bytes>) {
    && (forall b :: b in stored ==> hash(b) in objects && objects[hash(b)] == b)
    && (forall d :: d in objects ==> objects[d] in stored && hash(objects[d]) == d)
  }

  // ----- Parents, one after another

  ghost function ParentsTo(path: Path, n: nat): set<Path> { set k | 1 <= k < n && k < |path| :: path[..k] }

  ghost function WithParentsTo(nodes: Nodes, path: Path, n: nat): Nodes {
    map p | p in nodes.Keys + ParentsTo(path, n) :: if p in nodes then nodes[p] else IMPLICIT
  }

  lemma NoParents(nodes: Nodes, path: Path)
    ensures WithParentsTo(nodes, path, 1) == nodes
    ensures WithParentsTo(nodes, path, |path|) == WithParents(nodes, path)
  {
    assert ParentsTo(path, |path|) == Parents(path);
  }

  lemma OneMoreParent(nodes: Nodes, path: Path, n: nat)
    requires 1 <= n < |path|
    ensures var before := WithParentsTo(nodes, path, n);
      WithParentsTo(nodes, path, n + 1) == (if path[..n] in before then before else before[path[..n] := IMPLICIT])
    ensures path[..n] in nodes <==> path[..n] in WithParentsTo(nodes, path, n)
    ensures path[..n] in nodes ==> WithParentsTo(nodes, path, n)[path[..n]] == nodes[path[..n]]
  {
    assert ParentsTo(path, n + 1) == ParentsTo(path, n) + {path[..n]};
    assert forall k :: 1 <= k < n ==> |path[..k]| != |path[..n]|;
  }

  lemma FewerParents(nodes: Nodes, path: Path, n: nat)
    requires n <= |path|
    ensures |WithParentsTo(nodes, path, n)| <= |WithParents(nodes, path)|
  {
    var a, b := WithParentsTo(nodes, path, n).Keys, WithParents(nodes, path).Keys;
    assert ParentsTo(path, n) <= Parents(path);
    assert b == a + (b - a);
  }

  lemma ParentsTwice(nodes: Nodes, path: Path)
    requires ParentsOk(nodes, path)
    ensures WithParents(WithParents(nodes, path), path) == WithParents(nodes, path) && ParentsOk(WithParents(nodes, path), path)
    ensures path in WithParents(nodes, path) <==> path in nodes
    ensures path in nodes ==> WithParents(nodes, path)[path] == nodes[path]
    ensures |nodes| <= |WithParents(nodes, path)|
  {
    assert path !in Parents(path) by {
      assert forall k :: 1 <= k < |path| ==> |path[..k]| != |path|;
    }
    var a, b := nodes.Keys, WithParents(nodes, path).Keys;
    assert b == a + (b - a);
  }

  lemma ParentIsThere(nodes: Nodes, path: Path)
    requires path != [] && ParentsOk(nodes, path)
    ensures Parent(path) == [] || (Parent(path) in WithParents(nodes, path) && WithParents(nodes, path)[Parent(path)].DirectoryShape?)
  {
    if |path| > 1 {
      assert path[..|path| - 1] in Parents(path);
    }
  }

  lemma SizeWithOneMore(nodes: Nodes, path: Path, shape: Shape)
    ensures |nodes[path := shape]| == if path in nodes then |nodes| else |nodes| + 1
  {
    assert nodes[path := shape].Keys == nodes.Keys + {path};
    if path in nodes {
      assert nodes.Keys + {path} == nodes.Keys;
    }
  }

  class ParseState {
    const limits: Limits
    const hash: Hash
    var root: DirectoryNode
    var objects: map<Digest, Bytes>
    var logicalEntries: nat
    var expandedFileBytes: nat
    var metadataBytes: nat
    var objectBytes: nat
    var workUnits: nat

    constructor (limits: Limits, hash: Hash)
      ensures this.limits == limits && this.hash == hash && ShowsState(EMPTY)
    {
      this.limits, this.hash := limits, hash;
      root, objects, logicalEntries, expandedFileBytes, metadataBytes, objectBytes, workUnits := ROOT, map[], 0, 0, 0, 0, 0;
      new;
      NothingShown();
    }

    /** The tree has exactly the nodes given, and the entry counter is their number. */
    ghost predicate ShowsNodes(nodes: Nodes)
      reads this
    {
      Shows(root, nodes) && logicalEntries == |nodes|
    }

    ghost predicate ShowsState(s: Flat)
      reads this
    {
      && ShowsNodes(s.nodes) && Indexes(hash, objects, s.stored)
      && expandedFileBytes == s.expanded && metadataBytes == s.metadata && objectBytes == s.objectBytes && workUnits == s.work
    }

    method ChargeMetadataBlock() returns (ok: bool)
      modifies this`metadataBytes, this`workUnits
      ensures metadataBytes == old(metadataBytes) + BLOCK_BYTES
      ensures ok ==> workUnits == old(workUnits) + 1
      ensures ok <==> old(metadataBytes) + BLOCK_BYTES <= limits.metadataBytes && old(workUnits) + 1 <= limits.workUnits
    {
      metadataBytes := metadataBytes + BLOCK_BYTES;
      if metadataBytes > limits.metadataBytes {
        return false;
      }
      ok := ChargeWork(1);
    }

    method ChargeWork(n: nat) returns (ok: bool)
      modifies this`workUnits
      ensures workUnits == old(workUnits) + n
      ensures ok <==> workUnits <= limits.workUnits
    {
      workUnits := workUnits + n;
      ok := workUnits <= limits.workUnits;
    }

    /** Creates the missing parents of a path, each of them a charged entry. */
    method EnsureParentDirectory(path: Path, ghost nodes: Nodes) returns (ok: bool)
      requires path != [] && ShowsNodes(nodes) && |nodes| <= limits.entries
      modifies this`root, this`logicalEntries
      ensures ok <==> ParentsOk(nodes, path) && |WithParents(nodes, path)| <= limits.entries
      ensures ok ==> ShowsNodes(WithParents(nodes, path))
    {
      hide Shows, WithParents, WithParentsTo, IsDirectory, Find;
      NoParents(nodes, path);
      for n := 1 to |path|
        invariant ShowsNodes(WithParentsTo(nodes, path, n)) && |WithParentsTo(nodes, path, n)| <= limits.entries
        invariant forall k :: 1 <= k < n && path[..k] in nodes ==> nodes[path[..k]].DirectoryShape?
        invariant n == 1 || IsDirectory(root, path[..n - 1])
      {
        ghost var before := WithParentsTo(nodes, path, n);
        var at := path[..n];
        OneMoreParent(nodes, path, n);
        FewerParents(nodes, path, n + 1);
        SizeWithOneMore(before, at, IMPLICIT);
        ShownAt(root, before, at);
        var found := Find(root, at);
        if found.None? {
          if logicalEntries + 1 > limits.entries {
            return false;
          }
          logicalEntries := logicalEntries + 1;
          assert IsDirectory(root, Parent(at)) by { ParentOfPrefix(root, path, n); }
          PlacedFresh(root, before, at, IMPLICIT_DIRECTORY);
          root := PlaceAt(root, at, IMPLICIT_DIRECTORY);
        } else if !found.value.DirectoryEntry? {
          assert at in Parents(path);
          return false;
        }
        ShownDirectory(root, WithParentsTo(nodes, path, n + 1), at);
      }
      AllParents(nodes, path);
      ok := true;
    }

    /** Makes sure that a file or link can go where it belongs, before its body is read. */
    method ReserveLeafPath(path: Path, ghost nodes: Nodes) returns (ok: bool)
      requires path != [] && ShowsNodes(nodes) && |nodes| <= limits.entries
      modifies this`root, this`logicalEntries
      ensures ok <==> ParentsOk(nodes, path) && path !in nodes && |WithParents(nodes, path)| + 1 <= limits.entries
      ensures ok ==> ShowsNodes(WithParents(nodes, path))
    {
      hide Shows, WithParents, Find, ParentsOk;
      ok := EnsureParentDirectory(path, nodes);
      if !ok {
        return;
      }
      ParentsTwice(nodes, path);
      ShownAt(root, WithParents(nodes, path), path);
      ok := Find(root, path).None? && logicalEntries + 1 <= limits.entries;
    }

    method InsertLeaf(path: Path, n: Node, ghost nodes: Nodes)
      requires path != [] && ParentsOk(nodes, path) && path !in nodes && ShowsNodes(WithParents(nodes, path)) && !n.DirectoryEntry?
      requires |WithParents(nodes, path)| + 1 <= limits.entries
      modifies this`root, this`logicalEntries
      ensures ShowsNodes(WithParents(nodes, path)[path := ShapeOf(n)])
    {
      hide Shows, WithParents, Find, ParentsOk, IsDirectory;
      ParentsTwice(nodes, path);
      var ok := EnsureParentDirectory(path, WithParents(nodes, path));
      ParentIsThere(nodes, path);
      ShownDirectory(root, WithParents(nodes, path), Parent(path));
      PlacedFresh(root, WithParents(nodes, path), path, n);
      SizeWithOneMore(WithParents(nodes, path), path, ShapeOf(n));
      logicalEntries := logicalEntries + 1;
      root := PlaceAt(root, path, n);
    }

    /** Adds an object unless it is stored already; two objects with one digest are refused. */
    method AdmitObject(b: Bytes, ghost stored: set<Bytes>) returns (ok: bool)
      requires Indexes(hash, objects, stored)
      modifies this`objects, this`objectBytes
      ensures ok <==> !Collides(hash, stored, b) && (b in stored || old(objectBytes) + |b| <= limits.objectBytes)
      ensures ok ==> Indexes(hash, objects, stored + {b}) && objectBytes == old(objectBytes) + if b in stored then 0 else |b|
    {
      var digest := hash(b);
      if digest in objects {
        assert objects[digest] in stored && hash(objects[digest]) == digest;
        if objects[digest] != b {
          return false;
        }
        assert stored + {b} == stored;
        return true;
      }
      if objectBytes + |b| > limits.objectBytes {
        return false;
      }
      objectBytes := objectBytes + |b|;
      objects := objects[digest := b];
      ok := true;
    }

    /** A directory entry: a new directory, or one that was there only as a parent. */
    method InsertDirectory(path: Path, mode: nat, ghost nodes: Nodes) returns (ok: bool)
      requires path != [] && ShowsNodes(nodes) && |nodes| <= limits.entries
      modifies this`root, this`logicalEntries
      ensures ok <==> ParentsOk(nodes, path) && Free(nodes, DirectoryItem(path, mode))
                      && |WithParents(nodes, path)[path := DirectoryShape(mode, true)]| <= limits.entries
      ensures ok ==> ShowsNodes(WithParents(nodes, path)[path := DirectoryShape(mode, true)])
    {
      hide Shows, WithParents, Find, ParentsOk, IsDirectory;
      ok := EnsureParentDirectory(path, nodes);
      ghost var before := WithParents(nodes, path);
      SizeWithOneMore(before, path, DirectoryShape(mode, true));
      if !ok {
        return;
      }
      ParentsTwice(nodes, path);
      ParentIsThere(nodes, path);
      ShownAt(root, before, path);
      ShownDirectory(root, before, Parent(path));
      var found := Find(root, path);
      if found.None? {
        if logicalEntries + 1 > limits.entries {
          return false;
        }
        var n := DirectoryEntry(DirectoryNode(mode, true, map[]));
        PlacedFresh(root, before, path, n);
        logicalEntries := logicalEntries + 1;
        root := PlaceAt(root, path, n);
      } else if found.value.DirectoryEntry? && !found.value.directory.explicit {
        PlacedExplicit(root, before, path, mode);
        root := PlaceAt(root, path, DirectoryEntry(found.value.directory.(mode := mode, explicit := true)));
      } else {
        return false;
      }
    }
  }

  lemma ShownAt(dir: DirectoryNode, nodes: Nodes, path: Path)
    requires Shows(dir, nodes) && path != []
    ensures path in nodes <==> Find(dir, path).Some?
    ensures path in nodes ==> nodes[path] == ShapeOf(Find(dir, path).value)
  {
  }

  lemma ParentOfPrefix(dir: DirectoryNode, path: Path, n: nat)
    requires 1 <= n <= |path| && (n == 1 || IsDirectory(dir, path[..n - 1]))
    ensures IsDirectory(dir, Parent(path[..n]))
  {
    assert Parent(path[..n]) == path[..n - 1];
  }

  lemma AllParents(nodes: Nodes, path: Path)
    requires forall k :: 1 <= k < |path| && path[..k] in nodes ==> nodes[path[..k]].DirectoryShape?
    ensures ParentsOk(nodes, path)
  {
  }
}
