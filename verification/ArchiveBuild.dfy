/** The last step of decoding: the nested directories become canonical tree objects, deepest first. */
module ArchiveBuild {
  import opened Base
  import opened Text
  import opened Canonical
  import opened ArchiveTree

  type Trees = map<Digest, TreeObject>

  datatype BuildError = OverBudget | Collision | InvalidValue

  ghost predicate Extends(small: Trees, large: Trees) { forall d :: d in small ==> d in large && large[d] == small[d] }

  /** An entry describes a node; for a directory, its tree object describes everything below as well. */
  ghost predicate EntryMirrors(trees: Trees, e: TreeEntry, n: Node, height: nat)
    decreases height, 0
  {
    match n
    case FileNode(mode, digest, byteLen) => e.mode == mode && e.kind == File(digest, byteLen)
    case LinkNode(digest) => e.mode == SYMLINK_MODE && e.kind == Symlink(digest)
    case DirectoryEntry(d) => height > 0 && e.mode == d.mode && e.kind.Directory? && Mirrors(trees, e.kind.digest, d, height - 1)
  }

  ghost predicate EntriesMirror(trees: Trees, entries: seq<TreeEntry>, dir: DirectoryNode, height: nat)
    decreases height, 1
  {
    forall i :: 0 <= i < |entries| ==> entries[i].name in dir.children && EntryMirrors(trees, entries[i], dir.children[entries[i].name], height)
  }

  /** The tree object under a digest lists exactly the children of a directory, in order, and so on below. */
  ghost predicate Mirrors(trees: Trees, digest: Digest, dir: DirectoryNode, height: nat)
    decreases height, 2
  {
    && digest in trees && trees[digest].rootMode == dir.mode
    && StrictlySorted(NamesIn(trees[digest].entries))
    && (forall name :: name in dir.children ==> name in NamesIn(trees[digest].entries))
    && EntriesMirror(trees, trees[digest].entries, dir, height)
  }

  lemma {:induction false} EntryStays(small: Trees, large: Trees, e: TreeEntry, n: Node, height: nat)
    requires Extends(small, large) && EntryMirrors(small, e, n, height)
    ensures EntryMirrors(large, e, n, height)
    decreases height, 0
  {
    if n.DirectoryEntry? {
      MirrorStays(small, large, e.kind.digest, n.directory, height - 1);
    }
  }

  /** Further objects do not disturb what is there. */
  lemma {:induction false} MirrorStays(small: Trees, large: Trees, digest: Digest, dir: DirectoryNode, height: nat)
    requires Extends(small, large) && Mirrors(small, digest, dir, height)
    ensures Mirrors(large, digest, dir, height)
    decreases height, 2
  {
    EntriesStay(small, large, small[digest].entries, dir, height);
  }

  lemma {:induction false} EntriesStay(small: Trees, large: Trees, entries: seq<TreeEntry>, dir: DirectoryNode, height: nat)
    requires Extends(small, large) && EntriesMirror(small, entries, dir, height)
    ensures EntriesMirror(large, entries, dir, height)
    decreases height, 1
  {
    forall i | 0 <= i < |entries| ensures EntryMirrors(large, entries[i], dir.children[entries[i].name], height) {
      EntryStays(small, large, entries[i], dir.children[entries[i].name], height);
    }
  }

  // ----- Names in order

  lemma {:induction false} BeforeTotal(a: Bytes, b: Bytes)
    ensures a == b || Before(a, b) || Before(b, a)
  {
    if a != [] && b != [] && a[0] == b[0] {
      BeforeTotal(a[1..], b[1..]);
      assert a == [a[0]] + a[1..] && b == [b[0]] + b[1..];
    }
  }

  /** The first name in byte order. */
  method Least(names: set<Segment>) returns (least: Segment)
    requires names != {}
    ensures IsLeast(least, names)
  {
    least :| least in names;
    var seen := {least};
    while seen != names
      invariant seen <= names && least in seen && forall n :: n in seen && n != least ==> Before(least, n)
      decreases names - seen
    {
      assert !(names <= seen);
      var n :| n in names && n !in seen;
      BeforeTotal(least, n);
      if Before(n, least) {
        forall m | m in seen && m != least ensures Before(n, m) {
          BeforeTransitive(n, least, m);
        }
        least := n;
      }
      seen := seen + {n};
    }
  }

  // ----- Building

  ghost predicate Shallow(dir: DirectoryNode, height: nat) { forall p :: Find(dir, p).Some? ==> |p| <= height }

  lemma {:induction false} LongestOf(paths: set<Path>) returns (height: nat)
    ensures forall p :: p in paths ==> |p| <= height
  {
    if paths == {} {
      height := 0;
    } else {
      var p :| p in paths;
      var rest := LongestOf(paths - {p});
      height := if |p| > rest then |p| else rest;
    }
  }

  /** A tree that shows finitely many nodes has a height. */
  lemma HeightOf(dir: DirectoryNode, nodes: Nodes) returns (height: nat)
    requires Shows(dir, nodes)
    ensures Shallow(dir, height)
  {
    height := LongestOf(nodes.Keys);
    forall p | Find(dir, p).Some? ensures |p| <= height {
      assert p in nodes;
    }
  }

  lemma ChildShallow(dir: DirectoryNode, height: nat, name: Segment)
    requires Shallow(dir, height) && name in dir.children
    ensures height > 0 && (dir.children[name].DirectoryEntry? ==> Shallow(dir.children[name].directory, height - 1))
  {
    assert Find(dir, [name]).Some?;
    if dir.children[name].DirectoryEntry? {
      var child := dir.children[name].directory;
      forall p | Find(child, p).Some? ensures |p| <= height - 1 {
        assert ([name] + p)[1..] == p && Find(dir, [name] + p) == Find(child, p);
      }
    }
  }

  // ----- What a directory is built into

  type DigestOf = TreeObject -> Digest

  predicate IsLeast(least: Segment, names: set<Segment>) { least in names && forall n :: n in names && n != least ==> Before(least, n) }

  lemma {:induction false} LeastExists(names: set<Segment>)
    requires names != {}
    ensures exists n :: IsLeast(n, names)
  {
    var x :| x in names;
    if names == {x} {
      assert IsLeast(x, names);
    } else {
      var rest := names - {x};
      assert exists y :: y in rest by {
        assert names == rest + {x};
      }
      LeastExists(rest);
      var y :| IsLeast(y, rest);
      BeforeTotal(x, y);
      if Before(x, y) {
        forall m | m in names && m != x ensures Before(x, m) {
          if m != y {
            BeforeTransitive(x, y, m);
          }
        }
        assert IsLeast(x, names);
      } else {
        assert IsLeast(y, names);
      }
    }
  }

  lemma OneLeast(names: set<Segment>, a: Segment, b: Segment)
    requires IsLeast(a, names) && IsLeast(b, names)
    ensures a == b
  {
    if a != b {
      BeforeTransitive(a, b, a);
      BeforeIrreflexive(a);
    }
  }

  /** The names in byte order. */
  ghost function Listing(names: set<Segment>): (list: seq<Segment>)
    ensures forall i :: 0 <= i < |list| ==> list[i] in names
  {
    if names == {} then [] else
      LeastExists(names);
      var n :| IsLeast(n, names);
      [n] + Listing(names - {n})
  }

  lemma ListingStep(names: set<Segment>, least: Segment)
    requires IsLeast(least, names)
    ensures Listing(names) == [least] + Listing(names - {least})
  {
    var n :| IsLeast(n, names) && Listing(names) == [n] + Listing(names - {n});
    OneLeast(names, n, least);
  }

  ghost function EntryFor(digestOf: DigestOf, name: Segment, n: Node, height: nat): TreeEntry
    decreases height, 0
  {
    match n
    case FileNode(mode, digest, byteLen) => TreeEntry(name, mode, File(digest, byteLen))
    case LinkNode(digest) => TreeEntry(name, SYMLINK_MODE, Symlink(digest))
    case DirectoryEntry(d) =>
      TreeEntry(name, d.mode, Directory(if height > 0 then digestOf(TreeFor(digestOf, d, height - 1)) else Digest([])))
  }

  ghost function EntriesFor(digestOf: DigestOf, dir: DirectoryNode, names: seq<Segment>, height: nat): seq<TreeEntry>
    requires forall i :: 0 <= i < |names| ==> names[i] in dir.children
    decreases height, 1
  {
    seq(|names|, i requires 0 <= i < |names| => EntryFor(digestOf, names[i], dir.children[names[i]], height))
  }

  /** The tree object of a directory: it depends on the directory alone. */
  ghost function TreeFor(digestOf: DigestOf, dir: DirectoryNode, height: nat): TreeObject
    decreases height, 2
  {
    TreeObject(dir.mode, EntriesFor(digestOf, dir, Listing(dir.children.Keys), height))
  }

  ghost function NodeObjects(digestOf: DigestOf, n: Node, height: nat): set<TreeObject>
    decreases height, 0
  {
    if n.DirectoryEntry? && height > 0 then TreeObjects(digestOf, n.directory, height - 1) else {}
  }

  ghost function ObjectsBelow(digestOf: DigestOf, dir: DirectoryNode, names: set<Segment>, height: nat): set<TreeObject>
    decreases height, 1
  {
    set name, o | name in names && name in dir.children && o in NodeObjects(digestOf, dir.children[name], height) :: o
  }

  /** All tree objects that a directory is built into. */
  ghost function TreeObjects(digestOf: DigestOf, dir: DirectoryNode, height: nat): set<TreeObject>
    decreases height, 2
  {
    ObjectsBelow(digestOf, dir, dir.children.Keys, height) + {TreeFor(digestOf, dir, height)}
  }

  ghost function NodeWork(n: Node, height: nat): nat
    decreases height, 0
  {
    1 + if n.DirectoryEntry? && height > 0 then WorkBelow(n.directory, n.directory.children.Keys, height - 1) else 0
  }

  /** One unit for every node. */
  ghost function WorkBelow(dir: DirectoryNode, names: set<Segment>, height: nat): nat
    decreases height, 1
  {
    SumOver(names, name => if name in dir.children then NodeWork(dir.children[name], height) else 0)
  }

  ghost predicate NodeOk(name: Segment, n: Node, height: nat)
    decreases height, 0
  {
    && ValidSegment(name)
    && match n
       case FileNode(mode, _, byteLen) => FileMode(mode) && byteLen <= MAX_FILE_BYTES
       case LinkNode(_) => true
       case DirectoryEntry(d) => height > 0 && TreeOk(d, height - 1)
  }

  /** Names, modes and lengths that a tree object may hold, all the way down. */
  ghost predicate TreeOk(dir: DirectoryNode, height: nat)
    decreases height, 1
  {
    DirectoryMode(dir.mode) && forall name :: name in dir.children ==> NodeOk(name, dir.children[name], height)
  }

  // ----- Room for more objects

  /** What a builder has: its objects, and what has been charged. */
  datatype Account = Account(stored: set<TreeObject>, bytes: nat, work: nat)

  datatype Budget = Budget(digestOf: DigestOf, sizeOf: TreeObject -> nat, maxBytes: nat, maxWork: nat)

  ghost predicate NoCollision(digestOf: DigestOf, stored: set<TreeObject>) {
    forall a, b :: a in stored && b in stored && digestOf(a) == digestOf(b) ==> a == b
  }

  ghost function Charge(budget: Budget, a: Account, more: set<TreeObject>, work: nat): Account {
    Account(a.stored + more, a.bytes + SumOver(more - a.stored, budget.sizeOf), a.work + work)
  }

  ghost predicate InBudget(budget: Budget, a: Account) {
    NoCollision(budget.digestOf, a.stored) && a.bytes <= budget.maxBytes && a.work <= budget.maxWork
  }

  lemma ChargeTwice(budget: Budget, a: Account, more: set<TreeObject>, work: nat, again: set<TreeObject>, extra: nat)
    ensures Charge(budget, Charge(budget, a, more, work), again, extra) == Charge(budget, a, more + again, work + extra)
  {
    var first, second := more - a.stored, again - (a.stored + more);
    SumOverUnion(first, second, budget.sizeOf);
    assert first + second == (more + again) - a.stored;
  }

  /** What does not fit already does not fit with more. */
  lemma ChargeMore(budget: Budget, a: Account, less: set<TreeObject>, work: nat, more: set<TreeObject>, extra: nat)
    requires less <= more && work <= extra && InBudget(budget, Charge(budget, a, more, extra))
    ensures InBudget(budget, Charge(budget, a, less, work))
  {
    SumOverMonotone(less - a.stored, more - a.stored, budget.sizeOf);
  }

  lemma OneMoreName(digestOf: DigestOf, dir: DirectoryNode, names: set<Segment>, name: Segment, height: nat)
    requires name in dir.children && name !in names
    ensures ObjectsBelow(digestOf, dir, names + {name}, height) == ObjectsBelow(digestOf, dir, names, height) + NodeObjects(digestOf, dir.children[name], height)
    ensures WorkBelow(dir, names + {name}, height) == WorkBelow(dir, names, height) + NodeWork(dir.children[name], height)
  {
    hide NodeObjects, NodeWork;
    SumOverRemove(names + {name}, n => if n in dir.children then NodeWork(dir.children[n], height) else 0, name);
    assert names + {name} - {name} == names;
  }

  lemma FewerNames(digestOf: DigestOf, dir: DirectoryNode, names: set<Segment>, height: nat)
    requires names <= dir.children.Keys
    ensures ObjectsBelow(digestOf, dir, names, height) <= TreeObjects(digestOf, dir, height)
    ensures WorkBelow(dir, names, height) <= WorkBelow(dir, dir.children.Keys, height)
  {
    hide NodeObjects, NodeWork;
    SumOverMonotone(names, dir.children.Keys, n => if n in dir.children then NodeWork(dir.children[n], height) else 0);
  }

  lemma NoNames(digestOf: DigestOf, dir: DirectoryNode, height: nat, budget: Budget, a: Account)
    ensures ObjectsBelow(digestOf, dir, {}, height) == {} && WorkBelow(dir, {}, height) == 0
    ensures EntriesFor(digestOf, dir, [], height) == []
    ensures Charge(budget, a, {}, 0) == a
  {
    assert {} - a.stored == {};
  }

  class Builder {
    const digestOf: DigestOf
    const sizeOf: TreeObject -> nat
    const maxObjectBytes: nat
    const maxWork: nat
    var trees: Trees
    var objectBytes: nat
    var workUnits: nat

    constructor (digestOf: DigestOf, sizeOf: TreeObject -> nat, maxObjectBytes: nat, maxWork: nat, objectBytes: nat, workUnits: nat)
      ensures trees == map[] && Budgeted() == Budget(digestOf, sizeOf, maxObjectBytes, maxWork)
      ensures Accounted() == Account({}, objectBytes, workUnits)
    {
      this.digestOf, this.sizeOf, this.maxObjectBytes, this.maxWork := digestOf, sizeOf, maxObjectBytes, maxWork;
      trees, this.objectBytes, this.workUnits := map[], objectBytes, workUnits;
    }

    ghost function Budgeted(): Budget { Budget(digestOf, sizeOf, maxObjectBytes, maxWork) }

    ghost function Accounted(): Account
      reads this
    {
      Account(trees.Values, objectBytes, workUnits)
    }

    /** Every tree is stored under its own digest. */
    ghost predicate Valid()
      reads this
    {
      (forall d :: d in trees ==> digestOf(trees[d]) == d) && InBudget(Budgeted(), Accounted())
    }

    /** Stores a tree once; refuses exactly a different tree with the same digest, and one too large. */
    method InsertTree(tree: TreeObject) returns (r: Result<Digest, BuildError>)
      requires Valid()
      modifies this`trees, this`objectBytes
      ensures Extends(old(trees), trees)
      ensures r.Success? <==> InBudget(Budgeted(), Charge(Budgeted(), old(Accounted()), {tree}, 0))
      ensures r.Success? ==> Valid() && Accounted() == Charge(Budgeted(), old(Accounted()), {tree}, 0)
      ensures r.Success? ==> r.value == digestOf(tree) && r.value in trees && trees[r.value] == tree
      ensures r == Failure(Collision) ==> exists other :: other != tree && digestOf(other) == digestOf(tree)
    {
      var digest := digestOf(tree);
      if digest in trees {
        assert trees[digest] in trees.Values && digestOf(trees[digest]) == digest;
        if trees[digest] != tree {
          return Failure(Collision);
        }
        NothingNew(Budgeted(), Accounted(), tree);
        return Success(digest);
      }
      assert tree !in trees.Values;
      OneNew(Budgeted(), Accounted(), tree);
      objectBytes := objectBytes + sizeOf(tree);
      if objectBytes > maxObjectBytes {
        return Failure(OverBudget);
      }
      trees := trees[digest := tree];
      ValuesMore(old(trees), digest, tree);
      r := Success(digest);
    }

    /** One child of a directory, with everything below it. */
    method BuildEntry(name: Segment, n: Node, ghost height: nat) returns (r: Result<TreeEntry, BuildError>)
      requires Valid() && height > 0 && (n.DirectoryEntry? ==> Shallow(n.directory, height - 1))
      modifies this
      ensures Extends(old(trees), trees)
      ensures r.Success? <==>
        NodeOk(name, n, height) && InBudget(Budgeted(), Charge(Budgeted(), old(Accounted()), NodeObjects(digestOf, n, height), NodeWork(n, height)))
      ensures r.Success? ==> Valid()
      ensures r.Success? ==> Accounted() == Charge(Budgeted(), old(Accounted()), NodeObjects(digestOf, n, height), NodeWork(n, height))
      ensures r.Success? ==> r.value.name == name && r.value == EntryFor(digestOf, name, n, height) && EntryMirrors(trees, r.value, n, height)
      decreases height, 0
    {
      hide InBudget, Charge, Mirrors, TreeOk, TreeObjects, WorkBelow, TreeFor, Shallow;
      ghost var budget, before := Budgeted(), Accounted();
      OneUnit(budget, before);
      NodeAccount(budget, before, n, height);
      workUnits := workUnits + 1;
      if workUnits > maxWork {
        return Failure(OverBudget);
      }
      if !ValidSegment(name) {
        return Failure(InvalidValue);
      }
      match n {
        case FileNode(mode, digest, byteLen) =>
          if !FileMode(mode) || byteLen > MAX_FILE_BYTES {
            return Failure(InvalidValue);
          }
          r := Success(TreeEntry(name, mode, File(digest, byteLen)));
        case DirectoryEntry(child) =>
          var built := BuildTree(child, height - 1);
          if built.Failure? {
            return Failure(built.error);
          }
          r := Success(TreeEntry(name, child.mode, Directory(built.value)));
        case LinkNode(digest) =>
          r := Success(TreeEntry(name, SYMLINK_MODE, Symlink(digest)));
      }
    }

    /** A directory after all its children.  It succeeds exactly when everything below is well formed, no two
        tree objects have one digest, and objects and nodes are within the limits; the digest returned
        depends on the directory alone. */
    method BuildTree(dir: DirectoryNode, ghost height: nat) returns (r: Result<Digest, BuildError>)
      requires Valid() && Shallow(dir, height)
      modifies this
      ensures Extends(old(trees), trees)
      ensures r.Success? <==>
        TreeOk(dir, height) && InBudget(Budgeted(), Charge(Budgeted(), old(Accounted()), TreeObjects(digestOf, dir, height), WorkBelow(dir, dir.children.Keys, height)))
      ensures r.Success? ==> Valid()
      ensures r.Success? ==> Accounted() == Charge(Budgeted(), old(Accounted()), TreeObjects(digestOf, dir, height), WorkBelow(dir, dir.children.Keys, height))
      ensures r.Success? ==> r.value == digestOf(TreeFor(digestOf, dir, height)) && Mirrors(trees, r.value, dir, height)
      decreases height, 1
    {
      hide EntryMirrors, Before, Shallow, InBudget, Charge, NodeOk, NodeObjects, NodeWork, ObjectsBelow, WorkBelow, EntryFor, Listing, TreeObjects;
      ghost var budget, start := Budgeted(), Accounted();
      if !DirectoryMode(dir.mode) {
        return Failure(InvalidValue);
      }
      var names, entries: seq<TreeEntry> := dir.children.Keys, [];
      ghost var done: set<Segment>, listed: seq<Segment> := {}, [];
      NoNames(digestOf, dir, height, budget, start);
      while names != {}
        invariant Valid() && Extends(old(trees), trees) && names <= dir.children.Keys && done == dir.children.Keys - names
        invariant EntriesMirror(trees, entries, dir, height) && Listed(dir, names, entries)
        invariant Listing(dir.children.Keys) == listed + Listing(names) && forall i :: 0 <= i < |listed| ==> listed[i] in dir.children
        invariant entries == EntriesFor(digestOf, dir, listed, height)
        invariant Accounted() == Charge(budget, start, ObjectsBelow(digestOf, dir, done, height), WorkBelow(dir, done, height))
        invariant forall name :: name in done ==> NodeOk(name, dir.children[name], height)
        decreases names
      {
        var name := Least(names);
        ListingStep(names, name);
        ChildShallow(dir, height, name);
        BelowAccount(budget, start, dir, done, name, height);
        ghost var before := trees;
        var entry := BuildEntry(name, dir.children[name], height);
        if entry.Failure? {
          return Failure(entry.error);
        }
        EntriesStay(before, trees, entries, dir, height);
        ListedMore(dir, names, entries, entry.value);
        assert listed + ([name] + Listing(names - {name})) == listed + [name] + Listing(names - {name});
        EntriesMore(digestOf, dir, listed, name, height);
        entries, names := entries + [entry.value], names - {name};
        done, listed := done + {name}, listed + [name];
      }
      AllListed(listed);
      assert done == dir.children.Keys;
      var tree := TreeObject(dir.mode, entries);
      ghost var before := trees;
      RootAccount(budget, start, dir, height);
      r := InsertTree(tree);
      EntriesStay(before, trees, entries, dir, height);
    }
  }

  lemma ValuesMore(trees: Trees, d: Digest, tree: TreeObject)
    requires d !in trees
    ensures trees[d := tree].Values == trees.Values + {tree}
  {
    var more := trees[d := tree];
    forall v | v in trees.Values ensures v in more.Values {
      var e :| e in trees && trees[e] == v;
      assert more[e] == v;
    }
    assert more[d] == tree;
  }

  lemma AllListed(listed: seq<Segment>)
    ensures listed + Listing({}) == listed
  {
  }

  lemma EntriesMore(digestOf: DigestOf, dir: DirectoryNode, names: seq<Segment>, name: Segment, height: nat)
    requires (forall i :: 0 <= i < |names| ==> names[i] in dir.children) && name in dir.children
    ensures EntriesFor(digestOf, dir, names + [name], height)
         == EntriesFor(digestOf, dir, names, height) + [EntryFor(digestOf, name, dir.children[name], height)]
  {
    hide EntryFor;
  }

  lemma NothingNew(budget: Budget, a: Account, tree: TreeObject)
    requires tree in a.stored
    ensures Charge(budget, a, {tree}, 0) == a
  {
    assert {tree} - a.stored == {} && a.stored + {tree} == a.stored;
  }

  lemma OneNew(budget: Budget, a: Account, tree: TreeObject)
    requires tree !in a.stored
    ensures Charge(budget, a, {tree}, 0) == Account(a.stored + {tree}, a.bytes + budget.sizeOf(tree), a.work)
  {
    assert {tree} - a.stored == {tree};
    SumOverRemove({tree}, budget.sizeOf, tree);
    assert {tree} - {tree} == {};
  }

  lemma OneUnit(budget: Budget, a: Account)
    ensures Charge(budget, a, {}, 1) == a.(work := a.work + 1)
    ensures InBudget(budget, a) ==> (InBudget(budget, a.(work := a.work + 1)) <==> a.work + 1 <= budget.maxWork)
  {
    assert {} - a.stored == {} && a.stored + {} == a.stored;
  }

  /** The charge for a node is one unit and then the charge for what is below it. */
  lemma NodeAccount(budget: Budget, a: Account, n: Node, height: nat)
    requires height > 0
    ensures var after := Charge(budget, a, NodeObjects(budget.digestOf, n, height), NodeWork(n, height));
      && (InBudget(budget, after) ==> a.work + 1 <= budget.maxWork)
      && (!n.DirectoryEntry? ==> after == Charge(budget, a, {}, 1))
      && (n.DirectoryEntry? ==>
           after == Charge(budget, Charge(budget, a, {}, 1), TreeObjects(budget.digestOf, n.directory, height - 1),
                      WorkBelow(n.directory, n.directory.children.Keys, height - 1)))
  {
    hide TreeObjects, WorkBelow;
    if n.DirectoryEntry? {
      var objects, work := TreeObjects(budget.digestOf, n.directory, height - 1), WorkBelow(n.directory, n.directory.children.Keys, height - 1);
      ChargeTwice(budget, a, {}, 1, objects, work);
      assert {} + objects == objects;
    }
  }

  /** One more child: its charge comes on top of what is charged so far, and belongs to the whole. */
  lemma BelowAccount(budget: Budget, a: Account, dir: DirectoryNode, done: set<Segment>, name: Segment, height: nat)
    requires name in dir.children && name !in done && done <= dir.children.Keys
    ensures var d := budget.digestOf;
      && Charge(budget, Charge(budget, a, ObjectsBelow(d, dir, done, height), WorkBelow(dir, done, height)), NodeObjects(d, dir.children[name], height), NodeWork(dir.children[name], height))
           == Charge(budget, a, ObjectsBelow(d, dir, done + {name}, height), WorkBelow(dir, done + {name}, height))
      && (InBudget(budget, Charge(budget, a, TreeObjects(d, dir, height), WorkBelow(dir, dir.children.Keys, height))) ==>
           InBudget(budget, Charge(budget, a, ObjectsBelow(d, dir, done + {name}, height), WorkBelow(dir, done + {name}, height))))
  {
    hide ObjectsBelow, WorkBelow, NodeObjects, NodeWork, TreeObjects, InBudget, Charge;
    var d := budget.digestOf;
    OneMoreName(d, dir, done, name, height);
    ChargeTwice(budget, a, ObjectsBelow(d, dir, done, height), WorkBelow(dir, done, height), NodeObjects(d, dir.children[name], height), NodeWork(dir.children[name], height));
    FewerNames(d, dir, done + {name}, height);
    if InBudget(budget, Charge(budget, a, TreeObjects(d, dir, height), WorkBelow(dir, dir.children.Keys, height))) {
      ChargeMore(budget, a, ObjectsBelow(d, dir, done + {name}, height), WorkBelow(dir, done + {name}, height),
        TreeObjects(d, dir, height), WorkBelow(dir, dir.children.Keys, height));
    }
  }

  lemma RootAccount(budget: Budget, a: Account, dir: DirectoryNode, height: nat)
    ensures var d, keys := budget.digestOf, dir.children.Keys;
      Charge(budget, Charge(budget, a, ObjectsBelow(d, dir, keys, height), WorkBelow(dir, keys, height)), {TreeFor(d, dir, height)}, 0)
        == Charge(budget, a, TreeObjects(d, dir, height), WorkBelow(dir, keys, height))
  {
    hide ObjectsBelow, WorkBelow, TreeFor, Charge;
    var d, keys := budget.digestOf, dir.children.Keys;
    ChargeTwice(budget, a, ObjectsBelow(d, dir, keys, height), WorkBelow(dir, keys, height), {TreeFor(d, dir, height)}, 0);
  }

  /** The names listed so far: sorted, before all names to come, and none left out. */
  ghost predicate Listed(dir: DirectoryNode, rest: set<Segment>, entries: seq<TreeEntry>) {
    && StrictlySorted(NamesIn(entries))
    && (forall i, n :: 0 <= i < |entries| && n in rest ==> Before(entries[i].name, n))
    && (forall n :: n in dir.children ==> n in rest || n in NamesIn(entries))
  }

  lemma ListedMore(dir: DirectoryNode, rest: set<Segment>, entries: seq<TreeEntry>, e: TreeEntry)
    requires Listed(dir, rest, entries) && e.name in rest && forall n :: n in rest && n != e.name ==> Before(e.name, n)
    ensures Listed(dir, rest - {e.name}, entries + [e])
  {
    hide Before;
    var names, more := NamesIn(entries), NamesIn(entries + [e]);
    assert more == names + [e.name];
    assert forall n :: n in names ==> n in more;
    assert more[|names|] == e.name;
    forall i | 0 <= i < |more| - 1 ensures Before(more[i], more[i + 1]) {
      if i < |names| - 1 {
        assert Before(names[i], names[i + 1]);
      } else {
        assert Before(entries[i].name, e.name);
      }
    }
  }

  // ----- The paths of the built tree

  ghost function EntryNamed(entries: seq<TreeEntry>, name: Segment): Option<TreeEntry> {
    if entries == [] then None else if entries[0].name == name then Some(entries[0]) else EntryNamed(entries[1..], name)
  }

  ghost function Lookup(trees: Trees, digest: Digest, path: Path): Option<TreeEntry>
    decreases |path|
  {
    if path == [] || digest !in trees then None else
      var e := EntryNamed(trees[digest].entries, path[0]);
      if e.None? || |path| == 1 then e
      else if e.value.kind.Directory? then Lookup(trees, e.value.kind.digest, path[1..]) else None
  }

  /** The same node on both sides. */
  ghost predicate SameNode(e: Option<TreeEntry>, n: Option<Node>) {
    && (e.Some? <==> n.Some?)
    && (e.Some? ==> match n.value
          case FileNode(mode, digest, byteLen) => e.value.mode == mode && e.value.kind == File(digest, byteLen)
          case LinkNode(digest) => e.value.mode == SYMLINK_MODE && e.value.kind == Symlink(digest)
          case DirectoryEntry(d) => e.value.mode == d.mode && e.value.kind.Directory?)
  }

  lemma {:induction false} NamedEntry(entries: seq<TreeEntry>, name: Segment)
    ensures EntryNamed(entries, name).Some? <==> name in NamesIn(entries)
    ensures EntryNamed(entries, name).Some? ==>
      exists i :: 0 <= i < |entries| && entries[i] == EntryNamed(entries, name).value && entries[i].name == name
  {
    if entries != [] {
      NamedEntry(entries[1..], name);
      assert NamesIn(entries) == [entries[0].name] + NamesIn(entries[1..]);
      if entries[0].name != name && EntryNamed(entries[1..], name).Some? {
        var i :| 0 <= i < |entries| - 1 && entries[1..][i] == EntryNamed(entries[1..], name).value;
        assert entries[i + 1] == entries[1..][i];
      }
    }
  }

  /** The canonical tree has exactly the paths of the nested directories, with the same kinds, modes and
      contents. */
  lemma {:induction false} BuiltTreeHasSamePaths(trees: Trees, digest: Digest, dir: DirectoryNode, height: nat, path: Path)
    requires Mirrors(trees, digest, dir, height)
    ensures SameNode(Lookup(trees, digest, path), Find(dir, path))
    decreases |path|
  {
    if path != [] {
      var entries := trees[digest].entries;
      var e := EntryNamed(entries, path[0]);
      NamedEntry(entries, path[0]);
      if e.Some? {
        var i :| 0 <= i < |entries| && entries[i] == e.value && entries[i].name == path[0];
        assert EntryMirrors(trees, entries[i], dir.children[path[0]], height);
        if |path| > 1 && dir.children[path[0]].DirectoryEntry? {
          BuiltTreeHasSamePaths(trees, e.value.kind.digest, dir.children[path[0]].directory, height - 1, path[1..]);
        }
      }
    }
  }

  /** Decoded trees with the same nodes are built into the same tree object, whatever the order in which their
      entries came. */
  lemma OneRootTree(digestOf: DigestOf, a: DirectoryNode, b: DirectoryNode, nodes: Nodes, height: nat)
    requires Shows(a, nodes) && Shows(b, nodes) && a.mode == b.mode && a.explicit == b.explicit
    ensures TreeFor(digestOf, a, height) == TreeFor(digestOf, b, height)
  {
    var longest := LongestOf(nodes.Keys);
    SameTree(a, b, nodes, nodes, longest);
  }
}
