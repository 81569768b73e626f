/** The loader that brings the closure of a set of roots into memory under work and byte budgets. */
module Loader {
  import opened Base
  import opened Text
  import opened Canonical
  import opened Names
  import opened SymlinkGraph
  import opened TreeGraph
  import opened TreeStack
  import opened TreeClosure
  import TreeWalk

  const MAX_RETENTION_ENTRIES: nat := 1_000_000
  const MAX_RETENTION_DECODED_BYTES: nat := 512 * 1024 * 1024

  /** The canonical part of a store: contents, stored sizes, and the entries whose bytes do not decode
      or no longer hash to their name. */
  datatype Disk = Disk(objects: CanonicalObjects, sizes: Name -> nat, damaged: set<Name>)

  // ----- What a load needs and what it costs

  ghost predicate Readable(disk: Disk, x: Marks) {
    && (forall d :: d in x.files ==> d in disk.objects.files && FileName(d) !in disk.damaged)
    && (forall d :: d in x.symlinks ==> d in disk.objects.symlinks && SymlinkName(d) !in disk.damaged)
    && (forall d :: d in x.trees ==> d in disk.objects.trees && TreeName(d) !in disk.damaged)
  }

  ghost function Join2(a: Marks, b: Marks): Marks {
    Marks(a.files + b.files, a.symlinks + b.symlinks, a.trees + b.trees)
  }

  ghost function OnlyTree(root: Digest): Marks { Marks({}, {}, {root}) }

  ghost function OnlyFile(digest: Digest): Marks { Marks({digest}, {}, {}) }

  ghost function OnlyLink(digest: Digest): Marks { Marks({}, {digest}, {}) }

  ghost function WithoutLinks(x: Marks): Marks { Marks(x.files, {}, x.trees) }

  /** Work items charged for one root: every directory taken off the stack and every entry listed. */
  ghost function RootWork(trees: Trees, root: Digest): nat {
    var visits := UnfoldTree(trees, root, [], 0);
    1 + Weigh(visits, DirectoryWeight) + |visits|
  }

  ghost function StoredBytes(disk: Disk, x: Marks): nat { SumOver(MarkNames(x), disk.sizes) }

  /** One root can be loaded on top of `held` objects after `items` work items. */
  ghost predicate RootAdmitted(disk: Disk, start: nat, items: nat, held: Marks, root: Digest) {
    var x := WithoutLinks(ClosureOf(disk.objects.trees, OnlyTree(root)));
    && GraphOk(disk.objects, root)
    && Readable(disk, x)
    && items + RootWork(disk.objects.trees, root) <= MAX_RETENTION_ENTRIES
    && start + StoredBytes(disk, Join2(held, x)) <= MAX_RETENTION_DECODED_BYTES
  }

  /** Objects held in memory are exact copies of undamaged stored objects. */
  ghost predicate Held(disk: Disk, objects: CanonicalObjects) {
    && Readable(disk, KeysOf(objects))
    && (forall d :: d in objects.files ==> objects.files[d] == disk.objects.files[d])
    && (forall d :: d in objects.symlinks ==> objects.symlinks[d] == disk.objects.symlinks[d])
    && (forall d :: d in objects.trees ==> objects.trees[d] == disk.objects.trees[d])
  }

  lemma BytesMonotone(disk: Disk, a: Marks, b: Marks)
    requires MarksWithin(a, b)
    ensures StoredBytes(disk, a) <= StoredBytes(disk, b)
  {
    SumOverMonotone(MarkNames(a), MarkNames(b), disk.sizes);
  }

  lemma BytesAdd(disk: Disk, a: Marks, b: Marks, n: Name)
    requires MarkNames(b) == MarkNames(a) + {n} && n !in MarkNames(a)
    ensures StoredBytes(disk, b) == StoredBytes(disk, a) + disk.sizes(n)
  {
    SumOverRemove(MarkNames(b), disk.sizes, n);
    assert MarkNames(b) - {n} == MarkNames(a);
  }

  ghost function WithTree(disk: Disk, objects: CanonicalObjects, d: Digest): CanonicalObjects
    requires d in disk.objects.trees
  {
    objects.(trees := objects.trees[d := disk.objects.trees[d]])
  }

  lemma HoldTree(disk: Disk, objects: CanonicalObjects, d: Digest)
    requires Held(disk, objects) && d !in objects.trees
    requires d in disk.objects.trees && TreeName(d) !in disk.damaged
    ensures Held(disk, WithTree(disk, objects, d))
    ensures KeysOf(WithTree(disk, objects, d)) == Join2(KeysOf(objects), OnlyTree(d))
    ensures StoredBytes(disk, Join2(KeysOf(objects), OnlyTree(d))) == StoredBytes(disk, KeysOf(objects)) + disk.sizes(TreeName(d))
  {
    BytesAdd(disk, KeysOf(objects), Join2(KeysOf(objects), OnlyTree(d)), TreeName(d));
  }

  ghost function WithFile(disk: Disk, objects: CanonicalObjects, d: Digest): CanonicalObjects
    requires d in disk.objects.files
  {
    objects.(files := objects.files[d := disk.objects.files[d]])
  }

  lemma HoldFile(disk: Disk, objects: CanonicalObjects, d: Digest)
    requires Held(disk, objects) && d !in objects.files
    requires d in disk.objects.files && FileName(d) !in disk.damaged
    ensures Held(disk, WithFile(disk, objects, d))
    ensures KeysOf(WithFile(disk, objects, d)) == Join2(KeysOf(objects), OnlyFile(d))
    ensures StoredBytes(disk, Join2(KeysOf(objects), OnlyFile(d))) == StoredBytes(disk, KeysOf(objects)) + disk.sizes(FileName(d))
  {
    BytesAdd(disk, KeysOf(objects), Join2(KeysOf(objects), OnlyFile(d)), FileName(d));
  }

  ghost function WithLink(disk: Disk, objects: CanonicalObjects, d: Digest): CanonicalObjects
    requires d in disk.objects.symlinks
  {
    objects.(symlinks := objects.symlinks[d := disk.objects.symlinks[d]])
  }

  lemma HoldLink(disk: Disk, objects: CanonicalObjects, d: Digest)
    requires Held(disk, objects) && d !in objects.symlinks
    requires d in disk.objects.symlinks && SymlinkName(d) !in disk.damaged
    ensures Held(disk, WithLink(disk, objects, d))
    ensures KeysOf(WithLink(disk, objects, d)) == Join2(KeysOf(objects), OnlyLink(d))
    ensures StoredBytes(disk, Join2(KeysOf(objects), OnlyLink(d))) == StoredBytes(disk, KeysOf(objects)) + disk.sizes(SymlinkName(d))
  {
    BytesAdd(disk, KeysOf(objects), Join2(KeysOf(objects), OnlyLink(d)), SymlinkName(d));
  }

  // ----- Digests named by a list of visits

  ghost function FilesIn(visits: seq<Visit>): set<Digest> {
    set v | v in visits && v.entry.kind.File? :: v.entry.kind.digest
  }

  ghost function LinksIn(visits: seq<Visit>): set<Digest> {
    set v | v in visits && v.entry.kind.Symlink? :: v.entry.kind.digest
  }

  ghost function TreesIn(visits: seq<Visit>): set<Digest> {
    set v | v in visits && v.entry.kind.Directory? :: v.entry.kind.digest
  }

  ghost function OpenDigests(open: seq<Open>): set<Digest> {
    set o | o in open :: o.digest
  }

  lemma RootClosure(trees: Trees, root: Digest)
    ensures ClosureOf(trees, OnlyTree(root)) == var u := UnfoldTree(trees, root, [], 0);
              Marks(FilesIn(u), LinksIn(u), {root} + TreesIn(u))
  {
  }

  /** A directory on the loader's stack: the path itself is not kept, only its length in bytes. */
  datatype Pending = Pending(digest: Digest, depth: nat, prefixBytes: nat)

  ghost predicate PendingFor(pending: seq<Pending>, open: seq<Open>) {
    |pending| == |open|
    && forall i :: 0 <= i < |open| ==> pending[i] == Pending(open[i].digest, |open[i].path|, |Join(open[i].path)|)
  }

  /** A traversal in progress: where it started, what it has visited, and what is on its stack. */
  datatype Trace = Trace(
    root: Digest, items: nat, held: Marks, links: set<Digest>,
    done: seq<Visit>, open: seq<Open>, popped: set<Digest>, pops: nat)

  ghost predicate CountsOk(t: Trace, items: nat, logicalEntries: nat, logicalBytes: nat) {
    && logicalEntries == |t.done| && logicalBytes == FileBytes(t.done)
    && items == t.items + t.pops + |t.done|
    && t.pops + |t.open| == 1 + Weigh(t.done, DirectoryWeight)
  }

  ghost predicate SetsOk(t: Trace, held: Marks, links: set<Digest>) {
    && held == Marks(t.held.files + FilesIn(t.done), t.held.symlinks, t.held.trees + t.popped)
    && links == t.links + LinksIn(t.done)
    && t.popped + OpenDigests(t.open) == {t.root} + TreesIn(t.done)
  }

  ghost predicate TraversalOk(trees: Trees, t: Trace, pending: seq<Pending>, left: seq<TreeEntry>, path: Path) {
    && |path| <= MAX_DEPTH && Proper(path) && StackOk(t.open) && PendingFor(pending, t.open)
    && Accounted(trees, t.root, t.done, left, path, t.open)
    && multiset(t.done) <= multiset(UnfoldTree(trees, t.root, [], 0)) && Shallow(t.done)
  }

  ghost predicate TraceAdmitted(disk: Disk, start: nat, t: Trace) {
    RootAdmitted(disk, start, t.items, t.held, t.root)
  }

  ghost function StartTrace(root: Digest, items: nat, held: Marks, links: set<Digest>): Trace {
    Trace(root, items, held, links, [], [Open(root, [])], {}, 0)
  }

  lemma StartTraceOk(trees: Trees, root: Digest, items: nat, held: Marks, links: set<Digest>)
    ensures var t := StartTrace(root, items, held, links);
      CountsOk(t, items, 0, 0) && SetsOk(t, held, links) && TraversalOk(trees, t, [Pending(root, 0, 0)], [], [])
  {
    StartStack(trees, root);
  }

  ghost function PopTrace(t: Trace): Trace
    requires t.open != []
  {
    t.(open := t.open[..|t.open| - 1], popped := t.popped + {t.open[|t.open| - 1].digest}, pops := t.pops + 1)
  }

  lemma PopCounts(t: Trace, items: nat, logicalEntries: nat, logicalBytes: nat)
    requires t.open != [] && CountsOk(t, items, logicalEntries, logicalBytes)
    ensures CountsOk(PopTrace(t), items + 1, logicalEntries, logicalBytes)
  {
  }

  lemma PopSets(t: Trace, held: Marks, links: set<Digest>)
    requires t.open != [] && SetsOk(t, held, links)
    ensures SetsOk(PopTrace(t), Join2(held, OnlyTree(t.open[|t.open| - 1].digest)), links)
  {
    var last := |t.open| - 1;
    assert t.open == t.open[..last] + [t.open[last]];
    assert OpenDigests(t.open) == OpenDigests(t.open[..last]) + {t.open[last].digest};
  }

  lemma PopTraversal(trees: Trees, t: Trace, pending: seq<Pending>, path: Path)
    requires t.open != [] && TraversalOk(trees, t, pending, [], path)
    requires t.open[|t.open| - 1].digest in trees
    ensures var top := t.open[|t.open| - 1];
      TraversalOk(trees, PopTrace(t), pending[..|pending| - 1], trees[top.digest].entries, top.path)
  {
    hide Accounted, Join, UnfoldTree, Shallow;
    PopStack(trees, t.root, t.done, path, t.open);
  }

  ghost function TakeTrace(t: Trace, path: Path, e: TreeEntry): Trace {
    t.(done := t.done + [Visit(path + [e.name], e)], open := Push(t.open, path, e))
  }

  ghost function EntryMarks(e: TreeEntry): Marks {
    if e.kind.File? then OnlyFile(e.kind.digest) else Marks({}, {}, {})
  }

  lemma TakeCounts(t: Trace, items: nat, logicalEntries: nat, logicalBytes: nat, path: Path, e: TreeEntry)
    requires CountsOk(t, items, logicalEntries, logicalBytes)
    ensures CountsOk(TakeTrace(t, path, e), items + 1, logicalEntries + 1, logicalBytes + (if e.kind.File? then e.kind.byteLen else 0))
  {
    var v := Visit(path + [e.name], e);
    WeighAppend(t.done, [v], DirectoryWeight);
    WeighAppend(t.done, [v], FileWeight);
    assert [v][1..] == [];
  }

  lemma DigestsAppend(visits: seq<Visit>, v: Visit)
    ensures FilesIn(visits + [v]) == FilesIn(visits) + (if v.entry.kind.File? then {v.entry.kind.digest} else {})
    ensures LinksIn(visits + [v]) == LinksIn(visits) + (if v.entry.kind.Symlink? then {v.entry.kind.digest} else {})
    ensures TreesIn(visits + [v]) == TreesIn(visits) + (if v.entry.kind.Directory? then {v.entry.kind.digest} else {})
  {
    assert v in visits + [v];
  }

  lemma OpenAppend(open: seq<Open>, path: Path, e: TreeEntry)
    ensures OpenDigests(Push(open, path, e)) == OpenDigests(open) + (if e.kind.Directory? then {e.kind.digest} else {})
  {
    if e.kind.Directory? {
      var more := Push(open, path, e);
      assert more[|open|] in more;
    }
  }

  lemma TakeSets(t: Trace, held: Marks, links: set<Digest>, path: Path, e: TreeEntry)
    requires SetsOk(t, held, links)
    ensures SetsOk(TakeTrace(t, path, e), Join2(held, EntryMarks(e)), links + (if e.kind.Symlink? then {e.kind.digest} else {}))
  {
    hide FilesIn, LinksIn, TreesIn, OpenDigests, Push;
    DigestsAppend(t.done, Visit(path + [e.name], e));
    OpenAppend(t.open, path, e);
  }

  lemma TakeTraversal(trees: Trees, t: Trace, pending: seq<Pending>, rest: seq<TreeEntry>, path: Path, e: TreeEntry)
    requires TraversalOk(trees, t, pending, [e] + rest, path) && e.name != []
    ensures multiset(TakeTrace(t, path, e).done) <= multiset(UnfoldTree(trees, t.root, [], 0))
    ensures |path| < MAX_DEPTH ==>
      TraversalOk(trees, TakeTrace(t, path, e), PushPending(pending, path, e), rest, path)
  {
    hide Accounted, Join, UnfoldTree, StackOk;
    TakeEntry(trees, t.root, t.done, [e] + rest, rest, e, path, t.open);
  }

  ghost function PushPending(pending: seq<Pending>, path: Path, e: TreeEntry): seq<Pending> {
    if e.kind.Directory? then pending + [Pending(e.kind.digest, |path| + 1, |Join(path + [e.name])|)] else pending
  }

  lemma WorkLeft(disk: Disk, t: Trace, items: nat, logicalEntries: nat, logicalBytes: nat)
    requires multiset(t.done) <= multiset(UnfoldTree(disk.objects.trees, t.root, [], 0))
    requires CountsOk(t, items, logicalEntries, logicalBytes)
    ensures items + |t.open| <= t.items + RootWork(disk.objects.trees, t.root)
  {
    var u := UnfoldTree(disk.objects.trees, t.root, [], 0);
    WeighMonotone(t.done, u, DirectoryWeight);
    assert multiset(u) == multiset(t.done) + (multiset(u) - multiset(t.done));
  }

  /** What the trace has met belongs to the closure of its root. */
  lemma TraceInClosure(trees: Trees, t: Trace, held: Marks, links: set<Digest>)
    requires multiset(t.done) <= multiset(UnfoldTree(trees, t.root, [], 0))
    requires SetsOk(t, held, links)
    ensures var x := ClosureOf(trees, OnlyTree(t.root));
      t.popped <= x.trees && OpenDigests(t.open) <= x.trees && FilesIn(t.done) <= x.files && LinksIn(t.done) <= x.symlinks
  {
    var u := UnfoldTree(trees, t.root, [], 0);
    RootClosure(trees, t.root);
    forall v | v in t.done ensures v in u {
      assert v in multiset(t.done) && v in multiset(u);
    }
  }

  /** A failed read of a part of the closure, or one over budget, shows that the root is not admitted. */
  lemma FetchFailed(disk: Disk, start: nat, t: Trace, held: Marks, links: set<Digest>, one: Marks)
    requires multiset(t.done) <= multiset(UnfoldTree(disk.objects.trees, t.root, [], 0))
    requires SetsOk(t, held, links)
    requires MarksWithin(one, WithoutLinks(ClosureOf(disk.objects.trees, OnlyTree(t.root))))
    requires !Readable(disk, one) || start + StoredBytes(disk, Join2(held, one)) > MAX_RETENTION_DECODED_BYTES
    ensures !TraceAdmitted(disk, start, t)
  {
    hide UnfoldTree, FilesIn, LinksIn, OpenDigests, ClosureOf, MarkNames;
    var x := WithoutLinks(ClosureOf(disk.objects.trees, OnlyTree(t.root)));
    TraceInClosure(disk.objects.trees, t, held, links);
    BytesMonotone(disk, Join2(held, one), Join2(t.held, x));
  }

  /** An entry past a limit shows that the graph below the root is not acceptable. */
  lemma LimitBroken(disk: Disk, start: nat, t: Trace, path: Path, e: TreeEntry)
    requires multiset(TakeTrace(t, path, e).done) <= multiset(UnfoldTree(disk.objects.trees, t.root, [], 0))
    requires !AllOk(disk.objects, TakeTrace(t, path, e).done)
    ensures !TraceAdmitted(disk, start, t)
  {
    if GraphOk(disk.objects, t.root) {
      PartOk(disk.objects, t.root, TakeTrace(t, path, e).done);
    }
  }

  /** Work and byte counters shared by all loads of one operation. */
  class LoadBudget {
    var items: nat
    var bytes: nat

    constructor (decodedBytes: nat)
      ensures items == 0 && bytes == decodedBytes
    {
      items, bytes := 0, decodedBytes;
    }

    ghost predicate Within()
      reads this
    {
      items <= MAX_RETENTION_ENTRIES && bytes <= MAX_RETENTION_DECODED_BYTES
    }

    /** The byte counter stands for the objects read since it stood at `start`. */
    ghost predicate Pays(disk: Disk, start: nat, objects: CanonicalObjects)
      reads this
    {
      Within() && bytes == start + StoredBytes(disk, KeysOf(objects))
    }

    method ChargeItem() returns (ok: bool)
      requires Within()
      modifies this`items
      ensures ok <==> old(items) < MAX_RETENTION_ENTRIES
      ensures items == (if ok then old(items) + 1 else old(items)) && Within()
    {
      if items == MAX_RETENTION_ENTRIES {
        return false;
      }
      items := items + 1;
      ok := true;
    }

    method ChargeBytes(n: nat) returns (ok: bool)
      modifies this`bytes
      ensures bytes == old(bytes) + n
      ensures ok <==> old(bytes) + n <= MAX_RETENTION_DECODED_BYTES
    {
      bytes := bytes + n;
      ok := bytes <= MAX_RETENTION_DECODED_BYTES;
    }
  }

  method FetchTree(disk: Disk, budget: LoadBudget, ghost start: nat, objects: CanonicalObjects, digest: Digest)
    returns (ok: bool, next: CanonicalObjects)
    requires Held(disk, objects) && budget.Pays(disk, start, objects)
    modifies budget`bytes
    ensures ok ==> Held(disk, next) && budget.Pays(disk, start, next)
    ensures ok ==> digest in disk.objects.trees && next == WithTree(disk, objects, digest)
    ensures !ok ==> (!Readable(disk, OnlyTree(digest))
             || start + StoredBytes(disk, Join2(KeysOf(objects), OnlyTree(digest))) > MAX_RETENTION_DECODED_BYTES)
  {
    if digest in objects.trees {
      return true, objects;
    }
    if digest !in disk.objects.trees || TreeName(digest) in disk.damaged {
      return false, objects;
    }
    HoldTree(disk, objects, digest);
    ok := budget.ChargeBytes(disk.sizes(TreeName(digest)));
    if !ok {
      return false, objects;
    }
    next := objects.(trees := objects.trees[digest := disk.objects.trees[digest]]);
  }

  method FetchFile(disk: Disk, budget: LoadBudget, ghost start: nat, objects: CanonicalObjects, digest: Digest, byteLen: nat)
    returns (ok: bool, next: CanonicalObjects)
    requires Held(disk, objects) && budget.Pays(disk, start, objects)
    modifies budget`bytes
    ensures ok ==> Held(disk, next) && budget.Pays(disk, start, next)
    ensures ok ==> digest in disk.objects.files && next == WithFile(disk, objects, digest)
    ensures !ok ==> (!Readable(disk, OnlyFile(digest))
             || |disk.objects.files[digest]| != byteLen
             || start + StoredBytes(disk, Join2(KeysOf(objects), OnlyFile(digest))) > MAX_RETENTION_DECODED_BYTES)
  {
    if digest in objects.files {
      return true, objects;
    }
    if digest !in disk.objects.files || FileName(digest) in disk.damaged {
      return false, objects;
    }
    HoldFile(disk, objects, digest);
    ok := budget.ChargeBytes(disk.sizes(FileName(digest)));
    if !ok {
      return false, objects;
    }
    if |disk.objects.files[digest]| != byteLen {
      return false, objects;
    }
    next := objects.(files := objects.files[digest := disk.objects.files[digest]]);
  }

  method FetchLink(disk: Disk, budget: LoadBudget, ghost start: nat, objects: CanonicalObjects, digest: Digest)
    returns (ok: bool, next: CanonicalObjects)
    requires Held(disk, objects) && budget.Pays(disk, start, objects)
    modifies budget`bytes
    ensures ok ==> Held(disk, next) && budget.Pays(disk, start, next)
    ensures ok ==> digest in disk.objects.symlinks && next == WithLink(disk, objects, digest)
    ensures !ok ==> (!Readable(disk, OnlyLink(digest))
             || start + StoredBytes(disk, Join2(KeysOf(objects), OnlyLink(digest))) > MAX_RETENTION_DECODED_BYTES)
  {
    if digest in objects.symlinks {
      return true, objects;
    }
    if digest !in disk.objects.symlinks || SymlinkName(digest) in disk.damaged {
      return false, objects;
    }
    HoldLink(disk, objects, digest);
    ok := budget.ChargeBytes(disk.sizes(SymlinkName(digest)));
    if !ok {
      return false, objects;
    }
    next := objects.(symlinks := objects.symlinks[digest := disk.objects.symlinks[digest]]);
  }

  /** The limits the loader applies to an entry before it reads anything for it. */
  method CheckLimits(disk: Disk, budget: LoadBudget, ghost start: nat, ghost t: Trace, ghost path: Path,
                     e: TreeEntry, depth: nat, prefixBytes: nat, logicalEntries: nat, logicalBytes: nat)
    returns (ok: bool, pathBytes: nat)
    requires budget.Within() && depth == |path| <= MAX_DEPTH && Proper(path) && prefixBytes == |Join(path)| && e.name != []
    requires CountsOk(t, budget.items, logicalEntries, logicalBytes)
    requires multiset(t.done) <= multiset(UnfoldTree(disk.objects.trees, t.root, [], 0))
    requires multiset(TakeTrace(t, path, e).done) <= multiset(UnfoldTree(disk.objects.trees, t.root, [], 0))
    modifies budget`items
    ensures ok ==> budget.items == old(budget.items) + 1 && budget.Within()
    ensures ok ==> depth < MAX_DEPTH && pathBytes == |Join(path + [e.name])|
    ensures !ok ==> !TraceAdmitted(disk, start, t)
  {
    ghost var v := Visit(path + [e.name], e);
    JoinLength(path, e.name);
    TakeCounts(t, budget.items, logicalEntries, logicalBytes, path, e);
    WorkLeft(disk, TakeTrace(t, path, e), budget.items + 1, logicalEntries + 1,
      logicalBytes + (if e.kind.File? then e.kind.byteLen else 0));
    pathBytes := prefixBytes + (if prefixBytes != 0 then 1 else 0) + |e.name|;
    ok := budget.ChargeItem();
    if !ok {
      return;
    }
    assert v in TakeTrace(t, path, e).done && TakeTrace(t, path, e).done == t.done + [v];
    if depth + 1 > MAX_DEPTH || pathBytes > MAX_PATH_BYTES || logicalEntries == MAX_ENTRIES
       || (e.kind.File? && logicalBytes + e.kind.byteLen > MAX_FILE_BYTES) {
      LimitBroken(disk, start, t, path, e);
      ok := false;
    }
  }

  lemma TopInClosure(trees: Trees, t: Trace, held: Marks, links: set<Digest>)
    requires multiset(t.done) <= multiset(UnfoldTree(trees, t.root, [], 0))
    requires SetsOk(t, held, links) && t.open != []
    ensures MarksWithin(OnlyTree(t.open[|t.open| - 1].digest), WithoutLinks(ClosureOf(trees, OnlyTree(t.root))))
  {
    hide UnfoldTree, SetsOk, ClosureOf;
    TraceInClosure(trees, t, held, links);
    assert t.open[|t.open| - 1] in t.open;
    assert t.open[|t.open| - 1].digest in OpenDigests(t.open);
  }

  /** Reads the directory on top of the stack. */
  method OpenDirectory(disk: Disk, budget: LoadBudget, ghost start: nat, ghost t: Trace, top: Pending,
                       objects: CanonicalObjects, links: set<Digest>, logicalEntries: nat, logicalBytes: nat)
    returns (ok: bool, next: CanonicalObjects)
    requires Held(disk, objects) && budget.Pays(disk, start, objects)
    requires CountsOk(t, budget.items, logicalEntries, logicalBytes) && SetsOk(t, KeysOf(objects), links)
    requires multiset(t.done) <= multiset(UnfoldTree(disk.objects.trees, t.root, [], 0))
    requires t.open != [] && t.open[|t.open| - 1].digest == top.digest
    modifies budget
    ensures ok ==> Held(disk, next) && budget.Pays(disk, start, next) && top.digest in disk.objects.trees
    ensures ok ==> budget.items == old(budget.items) + 1
    ensures ok ==> CountsOk(PopTrace(t), budget.items, logicalEntries, logicalBytes) && SetsOk(PopTrace(t), KeysOf(next), links)
    ensures !ok ==> !TraceAdmitted(disk, start, t)
  {
    hide CountsOk, SetsOk, Held, Readable, UnfoldTree, PopTrace, ClosureOf, StoredBytes, WithoutLinks;
    next := objects;
    WorkLeft(disk, t, budget.items, logicalEntries, logicalBytes);
    PopCounts(t, budget.items, logicalEntries, logicalBytes);
    PopSets(t, KeysOf(objects), links);
    TopInClosure(disk.objects.trees, t, KeysOf(objects), links);
    ok := budget.ChargeItem();
    if ok {
      ok, next := FetchTree(disk, budget, start, objects, top.digest);
      if ok {
        assert KeysOf(next) == Join2(KeysOf(objects), OnlyTree(top.digest));
      } else {
        FetchFailed(disk, start, t, KeysOf(objects), links, OnlyTree(top.digest));
      }
    }
  }

  /** Charges one entry and reads the file it may name. */
  method LoadEntry(disk: Disk, budget: LoadBudget, ghost start: nat, ghost t: Trace, ghost path: Path, e: TreeEntry,
                   depth: nat, prefixBytes: nat, objects: CanonicalObjects, links: set<Digest>, entries: nat, bytes: nat)
    returns (ok: bool, next: CanonicalObjects, nextLinks: set<Digest>, nextEntries: nat, nextBytes: nat, pathBytes: nat)
    requires Held(disk, objects) && budget.Pays(disk, start, objects)
    requires depth == |path| <= MAX_DEPTH && Proper(path) && prefixBytes == |Join(path)| && e.name != []
    requires CountsOk(t, budget.items, entries, bytes) && SetsOk(t, KeysOf(objects), links)
    requires multiset(t.done) <= multiset(UnfoldTree(disk.objects.trees, t.root, [], 0))
    requires multiset(TakeTrace(t, path, e).done) <= multiset(UnfoldTree(disk.objects.trees, t.root, [], 0))
    modifies budget
    ensures ok ==> Held(disk, next) && budget.Pays(disk, start, next)
    ensures ok ==> budget.items == old(budget.items) + 1 && depth < MAX_DEPTH && pathBytes == |Join(path + [e.name])|
    ensures ok ==> CountsOk(TakeTrace(t, path, e), budget.items, nextEntries, nextBytes)
    ensures ok ==> SetsOk(TakeTrace(t, path, e), KeysOf(next), nextLinks)
    ensures !ok ==> !TraceAdmitted(disk, start, t)
  {
    hide CountsOk, SetsOk, Held, Readable, UnfoldTree, TakeTrace, StoredBytes, Join;
    next, nextLinks, nextEntries, nextBytes := objects, links, entries + 1, bytes;
    TakeCounts(t, budget.items, entries, bytes, path, e);
    TakeSets(t, KeysOf(objects), links, path, e);
    ok, pathBytes := CheckLimits(disk, budget, start, t, path, e, depth, prefixBytes, entries, bytes);
    if !ok {
      return;
    }
    match e.kind {
      case File(digest, byteLen) =>
        nextBytes := bytes + byteLen;
        ok, next := FetchFile(disk, budget, start, objects, digest, byteLen);
        if !ok {
          FileFailed(disk, start, t, KeysOf(objects), links, path, e);
          return;
        }
        assert KeysOf(next) == Join2(KeysOf(objects), EntryMarks(e)) && links + {} == links;
      case Directory(_) =>
        assert Join2(KeysOf(objects), EntryMarks(e)) == KeysOf(objects) && links + {} == links;
      case Symlink(digest) =>
        nextLinks := links + {digest};
        assert Join2(KeysOf(objects), EntryMarks(e)) == KeysOf(objects);
    }
  }

  lemma FileFailed(disk: Disk, start: nat, t: Trace, held: Marks, links: set<Digest>, path: Path, e: TreeEntry)
    requires multiset(t.done) <= multiset(UnfoldTree(disk.objects.trees, t.root, [], 0))
    requires multiset(TakeTrace(t, path, e).done) <= multiset(UnfoldTree(disk.objects.trees, t.root, [], 0))
    requires SetsOk(t, held, links) && e.kind.File?
    requires !Readable(disk, OnlyFile(e.kind.digest))
      || |disk.objects.files[e.kind.digest]| != e.kind.byteLen
      || start + StoredBytes(disk, Join2(held, OnlyFile(e.kind.digest))) > MAX_RETENTION_DECODED_BYTES
    ensures !TraceAdmitted(disk, start, t)
  {
    var v, more := Visit(path + [e.name], e), TakeTrace(t, path, e).done;
    assert v in more;
    if !AllOk(disk.objects, more) {
      LimitBroken(disk, start, t, path, e);
    } else {
      assert VisitOk(disk.objects, v);
      assert v in UnfoldTree(disk.objects.trees, t.root, [], 0) by {
        assert v in multiset(more) && v in multiset(UnfoldTree(disk.objects.trees, t.root, [], 0));
      }
      RootClosure(disk.objects.trees, t.root);
      FetchFailed(disk, start, t, held, links, OnlyFile(e.kind.digest));
    }
  }

  ghost predicate SameStart(t: Trace, u: Trace) {
    t.root == u.root && t.items == u.items && t.held == u.held && t.links == u.links
  }

  /** Exactly the closure of the root has been added to what was held. */
  ghost predicate RootLoaded(disk: Disk, root: Digest, held: Marks, direct: set<Digest>, after: Marks, links: set<Digest>) {
    var x := ClosureOf(disk.objects.trees, OnlyTree(root));
    after == Join2(held, WithoutLinks(x)) && links == direct + x.symlinks
      && Shallow(UnfoldTree(disk.objects.trees, root, [], 0))
  }

  lemma SameDigests(a: seq<Visit>, b: seq<Visit>)
    requires forall v :: v in a <==> v in b
    ensures FilesIn(a) == FilesIn(b) && LinksIn(a) == LinksIn(b) && TreesIn(a) == TreesIn(b)
  {
  }

  lemma TraversalDone(disk: Disk, t: Trace, path: Path, held: Marks, links: set<Digest>, items: nat, entries: nat, bytes: nat)
    requires TraversalOk(disk.objects.trees, t, [], [], path) && SetsOk(t, held, links) && CountsOk(t, items, entries, bytes)
    ensures RootLoaded(disk, t.root, t.held, t.links, held, links)
    ensures items == t.items + RootWork(disk.objects.trees, t.root)
  {
    hide ClosureOf, FilesIn, LinksIn, TreesIn, UnfoldTree;
    var u := UnfoldTree(disk.objects.trees, t.root, [], 0);
    assert t.open == [];
    StackDone(disk.objects.trees, t.root, t.done, path);
    SameMultiset(t.done, u);
    RootClosure(disk.objects.trees, t.root);
    SameDigests(t.done, u);
    assert OpenDigests([]) == {};
  }

  /** Every entry of one directory. */
  method LoadListing(disk: Disk, budget: LoadBudget, ghost start: nat, ghost from: Trace, ghost path: Path, top: Pending,
                     list: seq<TreeEntry>, held: CanonicalObjects, direct: set<Digest>, stack: seq<Pending>, entries: nat, bytes: nat)
    returns (ok: bool, objects: CanonicalObjects, links: set<Digest>, pending: seq<Pending>,
             logicalEntries: nat, logicalBytes: nat, ghost t: Trace)
    requires Held(disk, held) && budget.Pays(disk, start, held)
    requires forall i :: 0 <= i < |list| ==> list[i].name != []
    requires top.depth == |path| && top.prefixBytes == |Join(path)|
    requires CountsOk(from, budget.items, entries, bytes) && SetsOk(from, KeysOf(held), direct)
    requires TraversalOk(disk.objects.trees, from, stack, list, path)
    modifies budget
    ensures ok ==> Held(disk, objects) && budget.Pays(disk, start, objects) && budget.items >= old(budget.items)
    ensures ok ==> CountsOk(t, budget.items, logicalEntries, logicalBytes) && SetsOk(t, KeysOf(objects), links)
    ensures ok ==> SameStart(t, from) && TraversalOk(disk.objects.trees, t, pending, [], path)
    ensures !ok ==> !TraceAdmitted(disk, start, from)
  {
    hide CountsOk, SetsOk, TraversalOk, Held, RootAdmitted, StoredBytes, Join, Push, Readable;
    ok, objects, links, pending, logicalEntries, logicalBytes, t := true, held, direct, stack, entries, bytes, from;
    var i := 0;
    assert list[0..] == list;
    while i < |list|
      invariant ok && i <= |list| && budget.items >= old(budget.items)
      invariant Held(disk, objects) && budget.Pays(disk, start, objects) && SameStart(t, from)
      invariant CountsOk(t, budget.items, logicalEntries, logicalBytes)
      invariant SetsOk(t, KeysOf(objects), links)
      invariant TraversalOk(disk.objects.trees, t, pending, list[i..], path)
    {
      var e := list[i];
      assert list[i..] == [e] + list[i + 1..];
      TraversalBounds(disk.objects.trees, t, pending, list[i..], path);
      TakeTraversal(disk.objects.trees, t, pending, list[i + 1..], path, e);
      var pathBytes;
      ok, objects, links, logicalEntries, logicalBytes, pathBytes :=
        LoadEntry(disk, budget, start, t, path, e, top.depth, top.prefixBytes, objects, links, logicalEntries, logicalBytes);
      if !ok {
        return;
      }
      if e.kind.Directory? {
        pending := pending + [Pending(e.kind.digest, top.depth + 1, pathBytes)];
      }
      t := TakeTrace(t, path, e);
      i := i + 1;
    }
    assert list[i..] == [];
  }

  /** Unfolds one root.  On success exactly its closure has been added and exactly its work charged;
      failure means that the root could not have been loaded. */
  method LoadRoot(disk: Disk, budget: LoadBudget, ghost start: nat, held: CanonicalObjects, direct: set<Digest>, root: Digest)
    returns (ok: bool, objects: CanonicalObjects, links: set<Digest>)
    requires Held(disk, held) && budget.Pays(disk, start, held) && WellNamedTrees(disk.objects.trees)
    modifies budget
    ensures ok ==> Held(disk, objects) && budget.Pays(disk, start, objects)
    ensures ok ==> RootLoaded(disk, root, KeysOf(held), direct, KeysOf(objects), links)
    ensures ok ==> budget.items == old(budget.items) + RootWork(disk.objects.trees, root)
    ensures !ok ==> !RootAdmitted(disk, start, old(budget.items), KeysOf(held), root)
  {
    hide CountsOk, SetsOk, TraversalOk, Held, RootAdmitted, RootLoaded, RootWork, StoredBytes, Join, Readable, WellNamedTrees;
    objects, links := held, direct;
    var pending, logicalEntries, logicalBytes := [Pending(root, 0, 0)], 0, 0;
    ghost var t := StartTrace(root, budget.items, KeysOf(held), direct);
    ghost var start0, path: Path := t, [];
    StartTraceOk(disk.objects.trees, root, budget.items, KeysOf(held), direct);
    while pending != []
      invariant Held(disk, objects) && budget.Pays(disk, start, objects) && SameStart(t, start0)
      invariant CountsOk(t, budget.items, logicalEntries, logicalBytes)
      invariant SetsOk(t, KeysOf(objects), links)
      invariant TraversalOk(disk.objects.trees, t, pending, [], path)
      decreases MAX_RETENTION_ENTRIES - budget.items
    {
      var top, stack := pending[|pending| - 1], pending[..|pending| - 1];
      TopOfStack(disk.objects.trees, t, pending, path);
      ok, objects := OpenDirectory(disk, budget, start, t, top, objects, links, logicalEntries, logicalBytes);
      if !ok {
        return;
      }
      PopTraversal(disk.objects.trees, t, pending, path);
      EntriesNamed(disk.objects.trees, top.digest);
      path, t := t.open[|t.open| - 1].path, PopTrace(t);
      ok, objects, links, pending, logicalEntries, logicalBytes, t :=
        LoadListing(disk, budget, start, t, path, top, disk.objects.trees[top.digest].entries, objects, links, stack, logicalEntries, logicalBytes);
      if !ok {
        return;
      }
    }
    TraversalDone(disk, t, path, KeysOf(objects), links, budget.items, logicalEntries, logicalBytes);
    ok := true;
  }

  lemma EntriesNamed(trees: Trees, digest: Digest)
    requires WellNamedTrees(trees) && digest in trees
    ensures forall i :: 0 <= i < |trees[digest].entries| ==> trees[digest].entries[i].name != []
  {
    assert WellNamed(trees[digest]);
  }

  lemma TopOfStack(trees: Trees, t: Trace, pending: seq<Pending>, path: Path)
    requires TraversalOk(trees, t, pending, [], path) && pending != []
    ensures multiset(t.done) <= multiset(UnfoldTree(trees, t.root, [], 0)) && |t.open| == |pending|
    ensures var top, o := pending[|pending| - 1], t.open[|t.open| - 1];
      top.digest == o.digest && top.depth == |o.path| && top.prefixBytes == |Join(o.path)|
  {
  }

  lemma TraversalBounds(trees: Trees, t: Trace, pending: seq<Pending>, left: seq<TreeEntry>, path: Path)
    requires TraversalOk(trees, t, pending, left, path)
    ensures |path| <= MAX_DEPTH && Proper(path)
    ensures multiset(t.done) <= multiset(UnfoldTree(trees, t.root, [], 0))
  {
  }

  // ----- All roots together

  /** Everything a load of these roots and links brings in. */
  ghost function LoadMarks(disk: Disk, roots: set<Digest>, direct: set<Digest>): Marks {
    ClosureOf(disk.objects.trees, Marks({}, direct, roots))
  }

  ghost function Work(trees: Trees, roots: set<Digest>): nat {
    SumOver(roots, r => RootWork(trees, r))
  }

  /** When a load of these roots and links succeeds. */
  ghost predicate LoadAdmitted(disk: Disk, start: nat, items: nat, roots: set<Digest>, direct: set<Digest>) {
    var x := LoadMarks(disk, roots, direct);
    && Readable(disk, x)
    && (forall r :: r in roots ==> ValidTree(disk.objects, r))
    && items + Work(disk.objects.trees, roots) + |x.symlinks| <= MAX_RETENTION_ENTRIES
    && start + StoredBytes(disk, x) <= MAX_RETENTION_DECODED_BYTES
  }

  ghost function RestrictTo(objects: CanonicalObjects, x: Marks): CanonicalObjects {
    CanonicalObjects(
      map d | d in x.files && d in objects.files :: objects.files[d],
      map d | d in x.symlinks && d in objects.symlinks :: objects.symlinks[d],
      map d | d in x.trees && d in objects.trees :: objects.trees[d])
  }

  lemma LoadMarksAdd(disk: Disk, roots: set<Digest>, direct: set<Digest>, r: Digest)
    ensures LoadMarks(disk, roots + {r}, direct) == Join2(LoadMarks(disk, roots, direct), ClosureOf(disk.objects.trees, OnlyTree(r)))
  {
    hide UnfoldTree;
    var both, one := LoadMarks(disk, roots + {r}, direct), ClosureOf(disk.objects.trees, OnlyTree(r));
    var rest := LoadMarks(disk, roots, direct);
    assert both.files == rest.files + one.files;
    assert both.symlinks == rest.symlinks + one.symlinks;
    assert both.trees == rest.trees + one.trees;
  }

  lemma LoadMarksMonotone(disk: Disk, some: set<Digest>, roots: set<Digest>, direct: set<Digest>)
    requires some <= roots
    ensures MarksWithin(LoadMarks(disk, some, direct), LoadMarks(disk, roots, direct))
  {
    hide UnfoldTree;
  }

  lemma RootOfAdmitted(disk: Disk, start: nat, items0: nat, items: nat, roots: set<Digest>, direct: set<Digest>, done: set<Digest>, held: Marks, r: Digest)
    requires LoadAdmitted(disk, start, items0, roots, direct)
    requires done <= roots && r in roots && r !in done
    requires items == items0 + Work(disk.objects.trees, done)
    requires held == WithoutLinks(LoadMarks(disk, done, direct))
    ensures RootAdmitted(disk, start, items, held, r)
  {
    hide UnfoldTree, ClosureOf, RootWork, Work, StoredBytes, LoadMarks, Readable, GraphOk, MarksWithin, WithoutLinks, Join2;
    var x := WithoutLinks(ClosureOf(disk.objects.trees, OnlyTree(r)));
    var all := LoadMarks(disk, roots, direct);
    LoadMarksAdd(disk, done, direct, r);
    LoadMarksMonotone(disk, done + {r}, roots, direct);
    WorkWithin(disk.objects.trees, done, roots, r);
    PartOfJoin(LoadMarks(disk, done, direct), ClosureOf(disk.objects.trees, OnlyTree(r)), all);
    ReadableLess(disk, x, all);
    BytesMonotone(disk, Join2(held, x), all);
    ValidIsOk(disk.objects, r);
  }

  lemma ValidIsOk(objects: CanonicalObjects, r: Digest)
    ensures ValidTree(objects, r) ==> GraphOk(objects, r)
  {
  }

  lemma PartOfJoin(a: Marks, b: Marks, all: Marks)
    requires MarksWithin(Join2(a, b), all)
    ensures MarksWithin(WithoutLinks(b), all) && MarksWithin(Join2(WithoutLinks(a), WithoutLinks(b)), all)
  {
  }

  lemma ReadableLess(disk: Disk, a: Marks, b: Marks)
    requires MarksWithin(a, b)
    ensures Readable(disk, b) ==> Readable(disk, a)
  {
  }

  lemma WorkWithin(trees: Trees, done: set<Digest>, roots: set<Digest>, r: Digest)
    requires done <= roots && r in roots && r !in done
    ensures Work(trees, done) + RootWork(trees, r) <= Work(trees, roots)
  {
    var weight := (q: Digest) => RootWork(trees, q);
    SumOverRemove(done + {r}, weight, r);
    assert done + {r} - {r} == done;
    SumOverMonotone(done + {r}, roots, weight);
  }

  method LoadRoots(disk: Disk, budget: LoadBudget, roots: set<Digest>, direct: set<Digest>)
    returns (ok: bool, objects: CanonicalObjects, links: set<Digest>)
    requires budget.Within() && WellNamedTrees(disk.objects.trees)
    modifies budget
    ensures ok ==> Held(disk, objects) && budget.Pays(disk, old(budget.bytes), objects)
    ensures ok ==> KeysOf(objects) == WithoutLinks(LoadMarks(disk, roots, direct)) && links == LoadMarks(disk, roots, direct).symlinks
    ensures ok ==> budget.items == old(budget.items) + Work(disk.objects.trees, roots)
    ensures ok ==> forall r :: r in roots ==> Shallow(UnfoldTree(disk.objects.trees, r, [], 0))
    ensures !ok ==> !LoadAdmitted(disk, old(budget.bytes), old(budget.items), roots, direct)
  {
    hide UnfoldTree, RootWork, RootAdmitted, LoadAdmitted, Readable, WellNamedTrees;
    ok, objects, links := true, NO_OBJECTS, direct;
    ghost var start := budget.bytes;
    NothingHeld(disk, direct);
    var done: set<Digest> := {};
    while done != roots
      invariant ok && done <= roots
      invariant Held(disk, objects) && budget.Pays(disk, start, objects)
      invariant KeysOf(objects) == WithoutLinks(LoadMarks(disk, done, direct)) && links == LoadMarks(disk, done, direct).symlinks
      invariant budget.items == old(budget.items) + Work(disk.objects.trees, done)
      invariant forall r :: r in done ==> Shallow(UnfoldTree(disk.objects.trees, r, [], 0))
      decreases roots - done
    {
      assert !(roots <= done);
      var r :| r in roots && r !in done;
      ghost var held := KeysOf(objects);
      LoadMarksAdd(disk, done, direct, r);
      WorkAdd(disk.objects.trees, done, r);
      ghost var items := budget.items;
      ok, objects, links := LoadRoot(disk, budget, start, objects, links, r);
      if !ok {
        if LoadAdmitted(disk, start, old(budget.items), roots, direct) {
          RootOfAdmitted(disk, start, old(budget.items), items, roots, direct, done, held, r);
        }
        return;
      }
      done := done + {r};
    }
  }

  lemma WorkAdd(trees: Trees, done: set<Digest>, r: Digest)
    requires r !in done
    ensures Work(trees, done + {r}) == Work(trees, done) + RootWork(trees, r)
  {
    SumOverRemove(done + {r}, q => RootWork(trees, q), r);
    assert done + {r} - {r} == done;
  }

  lemma NothingHeld(disk: Disk, direct: set<Digest>)
    ensures Held(disk, NO_OBJECTS) && KeysOf(NO_OBJECTS) == Marks({}, {}, {}) && StoredBytes(disk, Marks({}, {}, {})) == 0
    ensures LoadMarks(disk, {}, direct) == Marks({}, direct, {}) && Work(disk.objects.trees, {}) == 0
  {
    assert MarkNames(Marks({}, {}, {})) == {};
  }

  ghost function WithLinks(x: Marks, links: set<Digest>): Marks { Marks(x.files, x.symlinks + links, x.trees) }

  lemma WithOneMore(x: Marks, done: set<Digest>, d: Digest)
    ensures Join2(WithLinks(x, done), OnlyLink(d)) == WithLinks(x, done + {d})
    ensures MarksWithin(WithLinks(x, done), WithLinks(x, done + {d}))
  {
  }

  lemma LinkFailed(disk: Disk, start: nat, x: Marks, y: Marks, links: set<Digest>, done: set<Digest>, d: Digest)
    requires y == WithLinks(x, links) && done <= links && d in links
    requires !Readable(disk, OnlyLink(d)) || start + StoredBytes(disk, Join2(WithLinks(x, done), OnlyLink(d))) > MAX_RETENTION_DECODED_BYTES
    ensures !Readable(disk, y) || start + StoredBytes(disk, y) > MAX_RETENTION_DECODED_BYTES
  {
    hide MarkNames;
    BytesMonotone(disk, Join2(WithLinks(x, done), OnlyLink(d)), y);
  }

  /** Reads the links found on the way and the direct ones. */
  method LoadLinks(disk: Disk, budget: LoadBudget, ghost start: nat, held: CanonicalObjects, links: set<Digest>)
    returns (ok: bool, objects: CanonicalObjects)
    requires Held(disk, held) && budget.Pays(disk, start, held) && held.symlinks == map[]
    modifies budget
    ensures ok ==> Held(disk, objects) && budget.Pays(disk, start, objects)
    ensures ok ==> KeysOf(objects) == WithLinks(KeysOf(held), links) && budget.items == old(budget.items) + |links|
    ensures !ok ==> (!Readable(disk, WithLinks(KeysOf(held), links)) || old(budget.items) + |links| > MAX_RETENTION_ENTRIES
             || start + StoredBytes(disk, WithLinks(KeysOf(held), links)) > MAX_RETENTION_DECODED_BYTES)
  {
    hide Held, Readable, StoredBytes, WithLinks, Join2, MarksWithin;
    ok, objects := true, held;
    ghost var x := KeysOf(held);
    var done: set<Digest> := {};
    WithNoLinks(x);
    while done != links
      invariant ok && done <= links
      invariant Held(disk, objects) && budget.Pays(disk, start, objects)
      invariant KeysOf(objects) == WithLinks(x, done) && budget.items == old(budget.items) + |done|
      decreases links - done
    {
      assert !(links <= done);
      var d :| d in links && d !in done;
      SmallerSubset(done + {d}, links);
      WithOneMore(x, done, d);
      ok := budget.ChargeItem();
      if !ok {
        return;
      }
      ghost var before := objects;
      ok, objects := FetchLink(disk, budget, start, objects, d);
      if !ok {
        LinkFailed(disk, start, x, WithLinks(x, links), links, done, d);
        return;
      }
      LinkHeld(disk, before, d);
      done := done + {d};
    }
  }

  lemma WithNoLinks(x: Marks)
    ensures WithLinks(x, {}) == x
  {
  }

  lemma LinkHeld(disk: Disk, objects: CanonicalObjects, d: Digest)
    requires d in disk.objects.symlinks
    ensures KeysOf(WithLink(disk, objects, d)) == Join2(KeysOf(objects), OnlyLink(d))
  {
  }

  /** Validates every root among the objects just read. */
  method ValidateRoots(objects: CanonicalObjects, roots: set<Digest>) returns (ok: bool)
    ensures ok <==> forall r :: r in roots ==> ValidTree(objects, r)
  {
    var done: set<Digest> := {};
    while done != roots
      invariant done <= roots && forall r :: r in done ==> ValidTree(objects, r)
      decreases roots - done
    {
      assert !(roots <= done);
      var r :| r in roots && r !in done;
      var valid := TreeWalk.ValidateGraph(objects, r);
      if valid.Failure? {
        return false;
      }
      done := done + {r};
    }
    ok := true;
  }

  /** Validity among the objects read is validity in the store. */
  lemma ReadCopyAgrees(disk: Disk, objects: CanonicalObjects, roots: set<Digest>, direct: set<Digest>)
    requires Held(disk, objects) && KeysOf(objects) == LoadMarks(disk, roots, direct)
    requires forall r :: r in roots ==> Shallow(UnfoldTree(disk.objects.trees, r, [], 0))
    ensures forall r :: r in roots ==> (ValidTree(objects, r) <==> ValidTree(disk.objects, r))
    ensures objects == RestrictTo(disk.objects, LoadMarks(disk, roots, direct))
  {
    hide ValidTree, UnfoldTree;
    var x := LoadMarks(disk, roots, direct);
    ClosureClosed(disk.objects.trees, Marks({}, direct, roots));
    SameObjects(objects, RestrictTo(disk.objects, x));
    forall r | r in roots ensures ValidTree(objects, r) <==> ValidTree(disk.objects, r) {
      assert r in x.trees;
      ValidTreeLocal(disk.objects, objects, x, r);
    }
  }

  lemma SameObjects(a: CanonicalObjects, b: CanonicalObjects)
    requires KeysOf(a) == KeysOf(b)
    requires forall d :: d in a.files ==> a.files[d] == b.files[d]
    requires forall d :: d in a.symlinks ==> a.symlinks[d] == b.symlinks[d]
    requires forall d :: d in a.trees ==> a.trees[d] == b.trees[d]
    ensures a == b
  {
    assert a.files == b.files && a.symlinks == b.symlinks && a.trees == b.trees;
  }

  /** Succeeds exactly when the closure is readable, every root is a valid tree and both budgets suffice;
      then it returns the closure and nothing else, and has charged exactly its work and its bytes. */
  method LoadCanonicalRoots(disk: Disk, budget: LoadBudget, roots: set<Digest>, direct: set<Digest>)
    returns (ok: bool, objects: CanonicalObjects)
    requires budget.Within() && WellNamedTrees(disk.objects.trees)
    modifies budget
    ensures ok <==> LoadAdmitted(disk, old(budget.bytes), old(budget.items), roots, direct)
    ensures ok ==> objects == RestrictTo(disk.objects, LoadMarks(disk, roots, direct))
    ensures ok ==> KeysOf(objects) == LoadMarks(disk, roots, direct)
    ensures ok ==> budget.bytes == old(budget.bytes) + StoredBytes(disk, LoadMarks(disk, roots, direct)) && budget.Within()
    ensures ok ==> budget.items == old(budget.items) + Work(disk.objects.trees, roots) + |LoadMarks(disk, roots, direct).symlinks|
  {
    hide StoredBytes, LoadMarks, Work, ValidTree, UnfoldTree, WellNamedTrees;
    var links;
    ok, objects, links := LoadRoots(disk, budget, roots, direct);
    if !ok {
      return;
    }
    ghost var x := LoadMarks(disk, roots, direct);
    assert WithLinks(WithoutLinks(x), links) == x;
    assert objects.symlinks.Keys == {};
    ok, objects := LoadLinks(disk, budget, old(budget.bytes), objects, links);
    if !ok {
      return;
    }
    ReadCopyAgrees(disk, objects, roots, direct);
    ok := ValidateRoots(objects, roots);
    assert Readable(disk, x);
  }
}
