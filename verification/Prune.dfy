/** The prune itself: decide, then unlink what is not kept, phase by phase.  The process may stop between any
    two unlinks. */
module Prune {
  import opened Base
  import opened Graphs
  import opened Canonical
  import opened Names
  import opened Store
  import opened RemovalOrder
  import opened Retention
  import opened CrashSafety
  import opened Rerun
  import opened RetainedRoots
  import opened PruneMark

  // ----- The store on disk

  class StoreHandle {
    var contents: Store

    constructor (s: Store)
      ensures contents == s
    {
      contents := s;
    }

    /** Reads an entry once more before it is unlinked; one that no longer is what its name says stays. */
    method Unlink(env: Env, n: Name) returns (ok: bool)
      requires OnDisk(contents, n)
      modifies this
      ensures ok <==> Sound(env, n)
      ensures contents == if ok then Without(old(contents), {n}) else old(contents)
    {
      ok := Sound(env, n);
      if ok {
        RemovedIsWithout(contents, n);
        contents := Removed(contents, n);
      }
    }
  }

  function Removed(s: Store, n: Name): Store {
    match n
    case GenerationName(d) => s.(generations := s.generations - {d})
    case PlanName(d) => s.(plans := s.plans - {d})
    case BlobName(d) => s.(blobs := s.blobs - {d})
    case PackName(d) => s.(packs := s.packs - {d})
    case ManifestName(d) => s.(manifests := s.manifests - {d})
    case TreeName(d) => s.(objects := s.objects.(trees := s.objects.trees - {d}))
    case SymlinkName(d) => s.(objects := s.objects.(symlinks := s.objects.symlinks - {d}))
    case FileName(d) => s.(objects := s.objects.(files := s.objects.files - {d}))
  }

  lemma RemovedObjects(s: Store, n: Name)
    ensures Removed(s, n).objects == Without(s, {n}).objects
  {
    var t, u := Removed(s, n).objects, Without(s, {n}).objects;
    assert t.files == u.files;
    assert t.symlinks == u.symlinks;
    assert t.trees == u.trees;
  }

  lemma RemovedRecords(s: Store, n: Name)
    ensures Removed(s, n).generations == Without(s, {n}).generations && Removed(s, n).plans == Without(s, {n}).plans
    ensures Removed(s, n).manifests == Without(s, {n}).manifests
  {
  }

  lemma RemovedIsWithout(s: Store, n: Name)
    ensures Removed(s, n) == Without(s, {n})
  {
    RemovedObjects(s, n);
    RemovedRecords(s, n);
    assert Removed(s, n).blobs == Without(s, {n}).blobs && Removed(s, n).packs == Without(s, {n}).packs;
  }

  // ----- The order of removal

  /** Entries in phase order, with generations children first. */
  ghost predicate Scheduled(s: Store, order: seq<Name>) {
    && Distinct(order)
    && (forall i, j :: 0 <= i < j < |order| ==> Phase(order[i]) <= Phase(order[j]))
    && (forall i, j :: 0 <= i < |order| && 0 <= j < |order| && ChildOf(s, order[i], order[j]) ==> i < j)
  }

  ghost predicate ChildOf(s: Store, a: Name, b: Name) {
    a.GenerationName? && b.GenerationName? && a.digest in s.generations && s.generations[a.digest].previous == Some(b.digest)
  }

  /** Where an entry stands, and whether that is among the first `n`. */
  lemma PlaceOf(order: seq<Name>, n: nat, m: Name) returns (j: nat)
    requires n <= |order| && m in SetOf(order)
    ensures j < |order| && order[j] == m && (m in SetOf(order[..n]) ==> j < n) && (m !in SetOf(order[..n]) ==> n <= j)
  {
    assert order == order[..n] + order[n..];
    if m in order[..n] {
      j :| 0 <= j < n && order[..n][j] == m;
    } else {
      var i :| 0 <= i < |order| - n && order[n..][i] == m;
      j := n + i;
    }
  }

  /** Whatever has been removed when the process stops is a state between two unlinks. */
  lemma PrefixIsCrashState(s: Store, req: Request, order: seq<Name>, n: nat)
    requires Scheduled(s, order) && n <= |order| && SetOf(order) == Garbage(s, req)
    ensures CrashState(s, req, SetOf(order[..n]))
  {
    hide Garbage, SetOf;
    var r := SetOf(order[..n]);
    PrefixWithin(order, n);
    forall m, e | e in r && m in Garbage(s, req) && Phase(m) < Phase(e) ensures m in r {
      var i := PlaceOf(order, n, e);
      var j := PlaceOf(order, n, m);
      assert m !in r ==> i < j;
    }
    forall c | c in s.generations && GenerationName(c) in Garbage(s, req) && s.generations[c].previous.Some?
      && GenerationName(s.generations[c].previous.value) in r
      ensures GenerationName(c) in r
    {
      var e := GenerationName(s.generations[c].previous.value);
      var i := PlaceOf(order, n, e);
      var j := PlaceOf(order, n, GenerationName(c));
      assert ChildOf(s, order[j], order[i]);
    }
  }

  lemma PrefixWithin(order: seq<Name>, n: nat)
    requires n <= |order|
    ensures SetOf(order[..n]) <= SetOf(order)
  {
  }

  ghost predicate UpTo(s: Store, k: Kept, phase: int, order: seq<Name>) {
    && Scheduled(s, order)
    && forall n :: n in order <==> OnDisk(s, n) && !Keeps(k, n) && Phase(n) <= phase
  }

  /** One phase as a list, in whatever order the directory gives. */
  method ListNames(digests: set<Digest>, name: Digest -> Name) returns (list: seq<Name>)
    requires forall a, b :: name(a) == name(b) ==> a == b
    ensures Distinct(list) && |list| == |digests| && forall n :: n in list <==> exists d :: d in digests && n == name(d)
  {
    list := [];
    var done: set<Digest> := {};
    while done != digests
      invariant done <= digests && Distinct(list) && |list| == |done|
      invariant forall n :: n in list <==> exists d :: d in done && n == name(d)
      decreases digests - done
    {
      assert !(digests <= done);
      var d :| d in digests && d !in done;
      assert name(d) !in list;
      list := list + [name(d)];
      done := done + {d};
    }
  }

  lemma AppendPhase(s: Store, k: Kept, order: seq<Name>, list: seq<Name>, phase: nat)
    requires phase > 0 && UpTo(s, k, phase - 1, order) && Distinct(list)
    requires forall n :: n in list <==> OnDisk(s, n) && !Keeps(k, n) && Phase(n) == phase
    ensures UpTo(s, k, phase, order + list)
  {
    hide OnDisk, Keeps;
    var more := order + list;
    assert forall i :: 0 <= i < |order| ==> more[i] == order[i] && order[i] in order;
    assert forall i :: |order| <= i < |more| ==> more[i] == list[i - |order|] && list[i - |order|] in list;
  }

  lemma GenerationsFirst(s: Store, k: Kept, order: seq<Digest>, list: seq<Name>)
    requires ChildrenFirst(s.generations, s.generations.Keys - k.generations, order)
    requires |list| == |order| && forall i :: 0 <= i < |list| ==> list[i] == GenerationName(order[i])
    ensures UpTo(s, k, 0, list)
  {
    forall n ensures n in list <==> OnDisk(s, n) && !Keeps(k, n) && Phase(n) <= 0 {
      if n in list {
        var i :| 0 <= i < |list| && list[i] == n;
        assert order[i] in order;
      }
      if n.GenerationName? && n.digest in s.generations && n.digest !in k.generations {
        assert n.digest in order;
        var i :| 0 <= i < |order| && order[i] == n.digest;
        assert list[i] == n;
      }
    }
    forall i, j | 0 <= i < |list| && 0 <= j < |list| && ChildOf(s, list[i], list[j]) ensures i < j {
      assert order[i] in order && order[j] in order;
      assert PredecessorEdge(s.generations, s.generations.Keys - k.generations)(order[i], order[j]);
    }
  }

  method AppendList(s: Store, ghost k: Kept, order: seq<Name>, digests: set<Digest>, name: Digest -> Name, ghost phase: nat) returns (more: seq<Name>)
    requires phase > 0 && UpTo(s, k, phase - 1, order) && forall a, b :: name(a) == name(b) ==> a == b
    requires forall d :: d in digests ==> OnDisk(s, name(d)) && !Keeps(k, name(d)) && Phase(name(d)) == phase
    requires forall n :: OnDisk(s, n) && !Keeps(k, n) && Phase(n) == phase ==> n.digest in digests && n == name(n.digest)
    ensures UpTo(s, k, phase, more)
  {
    hide OnDisk, Keeps, UpTo, Phase;
    var list := ListNames(digests, name);
    AppendPhase(s, k, order, list, phase);
    more := order + list;
  }

  /** Everything to be removed, in the order of the phases. */
  method Schedule(s: Store, k: Kept, generations: seq<Digest>) returns (order: seq<Name>)
    requires ChildrenFirst(s.generations, s.generations.Keys - k.generations, generations)
    ensures UpTo(s, k, 7, order)
  {
    hide UpTo, ChildrenFirst;
    order := seq(|generations|, i requires 0 <= i < |generations| => GenerationName(generations[i]));
    GenerationsFirst(s, k, generations, order);
    order := AppendList(s, k, order, s.plans.Keys - k.plans, d => PlanName(d), 1);
    order := AppendList(s, k, order, s.blobs - k.blobs, d => BlobName(d), 2);
    order := AppendList(s, k, order, s.packs - k.packs, d => PackName(d), 3);
    order := AppendList(s, k, order, s.manifests.Keys - k.packs, d => ManifestName(d), 4);
    order := ScheduleObjects(s, k, order);
  }

  method ScheduleObjects(s: Store, k: Kept, start: seq<Name>) returns (order: seq<Name>)
    requires UpTo(s, k, 4, start)
    ensures UpTo(s, k, 7, order)
  {
    hide UpTo;
    order := AppendList(s, k, start, s.objects.trees.Keys - k.marks.trees, d => TreeName(d), 5);
    order := AppendList(s, k, order, s.objects.symlinks.Keys - k.marks.symlinks, d => SymlinkName(d), 6);
    order := AppendList(s, k, order, s.objects.files.Keys - k.marks.files, d => FileName(d), 7);
  }

  lemma ScheduleIsGarbage(s: Store, req: Request, order: seq<Name>)
    requires UpTo(s, KeptOf(s, req), 7, order)
    ensures SetOf(order) == Garbage(s, req)
  {
    hide KeptOf, Garbage, Keeps, OnDisk;
    forall n ensures n in SetOf(order) <==> n in Garbage(s, req) {
      GarbageMember(s, req, n);
      assert Phase(n) <= 7;
    }
  }

  // ----- Removal

  /** Unlinks the names in order.  It stops early only when the process ends after `unlinks` of them, or at an
      entry that is not sound. */
  method RemoveNames(env: Env, store: StoreHandle, names: seq<Name>, unlinks: nat) returns (n: nat)
    requires Distinct(names) && forall i :: 0 <= i < |names| ==> OnDisk(store.contents, names[i])
    modifies store
    ensures n <= |names| && store.contents == Without(old(store.contents), SetOf(names[..n]))
    ensures n < |names| ==> n == unlinks || !Sound(env, names[n])
  {
    hide OnDisk, Without;
    n := 0;
    ghost var s := store.contents;
    assert names[..0] == [] && SetOf(names[..0]) == {};
    WithoutNothing(s);
    while n < |names| && n < unlinks
      invariant n <= |names| && n <= unlinks && store.contents == Without(s, SetOf(names[..n]))
    {
      StillThere(s, names, n);
      var ok := store.Unlink(env, names[n]);
      if !ok {
        return;
      }
      WithoutTwice(s, SetOf(names[..n]), {names[n]});
      TakeOne(names, n);
      n := n + 1;
    }
  }

  lemma StillThere(s: Store, names: seq<Name>, n: nat)
    requires Distinct(names) && n < |names| && OnDisk(s, names[n])
    ensures OnDisk(Without(s, SetOf(names[..n])), names[n])
  {
    hide OnDisk, Without;
    assert names[n] !in names[..n];
    OnDiskWithout(s, SetOf(names[..n]), names[n]);
  }

  // ----- Prune

  datatype Counts = Counts(plans: nat, blobs: nat, generations: nat, packs: nat, files: nat, symlinks: nat, trees: nat)

  /** How many entries of each kind are not kept. */
  function CountRemoved(s: Store, k: Kept): Counts {
    Counts(|s.plans.Keys - k.plans|, |s.blobs - k.blobs|, |s.generations.Keys - k.generations|, |(s.packs + s.manifests.Keys) - k.packs|,
      |s.objects.files.Keys - k.marks.files|, |s.objects.symlinks.Keys - k.marks.symlinks|, |s.objects.trees.Keys - k.marks.trees|)
  }

  datatype Outcome = Done(counts: Counts) | Refused(error: PruneError) | Stopped

  /** Refuses exactly what is not admissible and then changes nothing.  Otherwise it removes garbage only, in
      crash-safe order, and all of it unless it is stopped or meets an entry that is not sound. */
  method PruneStore(env: Env, store: StoreHandle, req: Request, dryRun: bool, unlinks: nat) returns (outcome: Outcome, ghost removed: set<Name>)
    requires WellNamedTrees(store.contents.objects.trees)
    modifies store
    ensures outcome.Refused? <==> !Admissible(env, old(store.contents), req)
    ensures outcome.Refused? || dryRun ==> store.contents == old(store.contents) && removed == {}
    ensures !outcome.Refused? ==> CrashState(old(store.contents), req, removed) && store.contents == Without(old(store.contents), removed)
    ensures outcome.Done? && !dryRun ==> store.contents == Pruned(old(store.contents), req)
    ensures outcome.Done? ==> outcome.counts == CountRemoved(old(store.contents), KeptOf(old(store.contents), req))
    ensures outcome.Stopped? ==> !dryRun && (|removed| == unlinks || exists n :: n in Garbage(old(store.contents), req) && !Sound(env, n))
    ensures outcome == Refused(MissingPlan) ==> !(req.plans <= old(store.contents).plans.Keys)
  {
    hide Admissible, KeptOf, Garbage, CrashState, Without, WellNamedTrees, ChildrenFirst, UpTo, NeededPlans, RootsOf, Reachable;
    var s := store.contents;
    removed := {};
    var decided := Decide(env, s, req);
    if decided.Failure? {
      return Refused(decided.error), removed;
    }
    var k := decided.value.kept;
    NothingRemovedYet(s, req);
    if dryRun {
      return Done(CountRemoved(s, k)), removed;
    }
    var order := Schedule(s, k, decided.value.order);
    ScheduleIsGarbage(s, req, order);
    ScheduleStored(s, k, order);
    var n := RemoveNames(env, store, order, unlinks);
    PrefixIsCrashState(s, req, order, n);
    removed := SetOf(order[..n]);
    if n < |order| {
      assert order[n] in SetOf(order);
      DistinctSize(order[..n]);
      return Stopped, removed;
    }
    assert order[..n] == order;
    outcome := Done(CountRemoved(s, k));
  }

  lemma NothingRemovedYet(s: Store, req: Request)
    ensures CrashState(s, req, {}) && Without(s, {}) == s
  {
    hide Garbage, Without;
    WithoutNothing(s);
  }

  lemma ScheduleStored(s: Store, k: Kept, order: seq<Name>)
    requires UpTo(s, k, 7, order)
    ensures Scheduled(s, order) && Distinct(order) && forall i :: 0 <= i < |order| ==> OnDisk(s, order[i])
  {
    hide OnDisk;
    forall i | 0 <= i < |order| ensures OnDisk(s, order[i]) {
      assert order[i] in order;
    }
  }

  lemma {:induction false} DistinctSize<T>(s: seq<T>)
    requires Distinct(s)
    ensures |SetOf(s)| == |s|
  {
    if s != [] {
      var last := |s| - 1;
      DistinctSize(s[..last]);
      TakeOne(s, last);
      assert s[..last + 1] == s;
      assert s[last] !in SetOf(s[..last]) by {
        assert forall i :: 0 <= i < last ==> s[..last][i] == s[i];
      }
    }
  }
}
