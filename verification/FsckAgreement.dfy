/** After a prune, the store check finds what it looks for, with two exceptions that are given exactly. */
module FsckAgreement {
  import opened Base
  import opened Graphs
  import opened RemovalOrder
  import opened Canonical
  import opened Names
  import opened TreeGraph
  import opened TreeClosure
  import opened Loader
  import opened Store
  import opened Retention
  import opened RetentionClosure
  import opened Remnant
  import opened CrashSafety
  import opened Readmission
  import opened Rerun
  import opened Witnesses
  import opened FsckMarks
  import opened FsckRoots

  // ----- Walks

  lemma {:induction false} AncestorShift(gens: Generations, d: Digest, n: nat)
    requires d in gens && gens[d].previous.Some?
    ensures Ancestor(gens, d, n + 1) == Ancestor(gens, gens[d].previous.value, n)
  {
    if n > 0 {
      AncestorShift(gens, d, n - 1);
    } else {
      assert Ancestor(gens, d, 0) == Some(d);
    }
  }

  ghost predicate Complete(gens: Generations, root: (Digest, nat)) {
    forall n :: 0 <= n < root.1 && Ancestor(gens, root.0, n).Some? ==> Ancestor(gens, root.0, n).value in gens
  }

  lemma CompleteBehind(gens: Generations, d: Digest, left: nat)
    requires left > 0 && Complete(gens, (d, left)) && d in gens && gens[d].previous.Some?
    ensures Complete(gens, (gens[d].previous.value, left - 1))
    ensures forall e :: Within(gens, (gens[d].previous.value, left - 1), e) ==> Within(gens, (d, left), e)
    ensures left > 1 ==> gens[d].previous.value in gens
  {
    forall n: nat | n < left - 1 ensures Ancestor(gens, gens[d].previous.value, n) == Ancestor(gens, d, n + 1) {
      AncestorShift(gens, d, n);
    }
    forall e | Within(gens, (gens[d].previous.value, left - 1), e) ensures Within(gens, (d, left), e) {
      var n :| 0 <= n < left - 1 && Ancestor(gens, gens[d].previous.value, n) == Some(e);
      assert Ancestor(gens, d, n + 1) == Some(e);
    }
    if left > 1 {
      assert Ancestor(gens, gens[d].previous.value, 0) == Some(gens[d].previous.value);
    }
  }

  /** Along a complete lineage the check misses nothing and reaches nothing beyond it. */
  lemma {:induction false} WalkComplete(world: Store, namespace: Option<Namespace>, d: Digest, left: nat, seen: set<Digest>)
    requires Complete(world.generations, (d, left)) && GenerationsHavePlans(world)
    ensures var w := WalkFrom(world, namespace, d, left, seen);
      w.missing == {} && forall e :: e in w.reached ==> e in world.generations && Within(world.generations, (d, left), e)
    decreases left
  {
    if left > 0 {
      assert Ancestor(world.generations, d, 0) == Some(d);
      assert Within(world.generations, (d, left), d);
      var g := world.generations[d];
      if g.previous.Some? {
        CompleteBehind(world.generations, d, left);
        WalkComplete(world, Some(g.namespace), g.previous.value, left - 1, seen + {d});
      }
    }
  }

  // ----- The pruned store

  /** The check reads the same records and trees as the prune, and of the other entries those that are sound. */
  lemma SeenRecords(env: Env, t: Store)
    requires RecordsSound(env, t) && CanonicalShaped(env, t)
    ensures var w := Seen(env, t);
      && w.catalog == t.catalog && w.generations == t.generations && w.plans == t.plans && w.objects.trees == t.objects.trees
      && w.blobs == (set d | d in t.blobs && Sound(env, BlobName(d))) && w.packs == VisiblePacks(env, t)
      && w.objects.files.Keys == (set d | d in t.objects.files && Sound(env, FileName(d)))
      && w.objects.symlinks.Keys == (set d | d in t.objects.symlinks && Sound(env, SymlinkName(d)))
  {
    hide VisiblePacks;
    var w := Seen(env, t);
    assert w.generations == t.generations && w.plans == t.plans;
    assert w.objects.trees == t.objects.trees;
  }

  /** What a completed prune leaves, in terms of what it kept. */
  ghost predicate Completed(env: Env, s: Store, req: Request, t: Store, k: Kept) {
    && k == KeptOf(s, req) && Part(t, s) && FollowsRecords(s, k) && FollowsPins(RootsOf(s, Chosen(s, req)), k)
    && t.plans.Keys == k.plans && t.generations.Keys == k.generations && t.blobs == k.blobs
    && k.packs <= t.packs + t.manifests.Keys && MarksWithin(k.marks, KeysOf(t.objects))
    && ManifestsHold(env, t, k.packs) && GenerationsHavePlans(t) && RootsHold(env, t, Remaining(req, t))
    && RootsWithin(RootsOf(t, t.plans.Keys), RootsOf(s, Chosen(s, req)))
    && (forall h :: h in t.catalog ==> h.generation in t.generations) && RecordsSound(env, t) && CanonicalShaped(env, t)
  }

  lemma BlobsLeft(s: Store, req: Request)
    requires KeptOf(s, req).blobs <= s.blobs
    ensures Pruned(s, req).blobs == KeptOf(s, req).blobs
  {
    hide KeptOf, Garbage;
    forall d | d in s.blobs ensures d in Pruned(s, req).blobs <==> d in KeptOf(s, req).blobs {
      GarbageMember(s, req, BlobName(d));
    }
  }

  lemma PruneCompletes(env: Env, s: Store, req: Request)
    requires Admissible(env, s, req)
    ensures Completed(env, s, req, Pruned(s, req), KeptOf(s, req))
  {
    hide KeptOf, Without, Garbage, RootsOf, RootsHold, WithinBudget, Part, Preserved, InOrder, FollowsRecords, FollowsPins, FollowsHistory, CrashState,
      GenerationsRebuild, ArtifactsHold, ManifestsHold, PacksShaped, CanonicalShaped, RecordsSound, RemovedBlobsShaped, PredecessorsStay,
      NothingKeptMissing, GenerationsHavePlans, Loads, StateTrees, StateLinks, Reachable, NeededPlans, Survivors, LineagesHold, RootsWithin;
    var t, k, r := Pruned(s, req), KeptOf(s, req), Garbage(s, req);
    AllGarbageRemoved(s, req);
    PhasesInOrder(s, req, r);
    KeptIsLeast(env, s, req);
    CrashPointSafe(env, s, req, r);
    PlansLeft(s, req);
    BlobsLeft(s, req);
    assert Interrupted(env, s, req, t, k);
    RootsStillHold(env, s, req, t, k);
    ManifestsStillHold(env, s, t, k, k.packs);
    HeadsPreserved(s, req, t);
    NextRun(env, s, req, t);
    AllChosen(s, req, t);
    HeadsLeft(env, s, t);
    ShapesHold(env, s, t, k);
  }

  lemma HeadsLeft(env: Env, s: Store, t: Store)
    requires HeadsHold(env, s) && Part(t, s)
    requires forall h :: h in s.catalog && h.generation in s.generations ==> h.generation in t.generations
    ensures forall h :: h in t.catalog ==> h.generation in t.generations
  {
    hide ObjectsPart;
  }

  lemma AllChosen(s: Store, req: Request, t: Store)
    requires t.plans.Keys == KeptOf(s, req).plans
    ensures Chosen(t, Remaining(req, t)) == t.plans.Keys
  {
    hide KeptWith, RootsOf, Reachable, NeededPlans;
    KeptGenerations(s, req);
  }

  // ----- Findings that a prune rules out

  lemma SameRoots(a: Store, b: Store, chosen: set<PlanId>)
    requires a.catalog == b.catalog && a.generations == b.generations && a.plans == b.plans
    ensures RootsOf(a, chosen) == RootsOf(b, chosen)
  {
    hide PointsOf;
    assert HeadRecords(a) == HeadRecords(b) && PlanRecords(a, chosen) == PlanRecords(b, chosen);
  }

  /** The world of the check is what it can see of the pruned store. */
  ghost predicate Watched(env: Env, s: Store, req: Request, t: Store, k: Kept, w: Store) {
    && Completed(env, s, req, t, k) && w == Seen(env, t)
    && w.catalog == t.catalog && w.generations == t.generations && w.plans == t.plans && w.objects.trees == t.objects.trees
    && w.blobs == (set d | d in t.blobs && Sound(env, BlobName(d))) && w.packs == VisiblePacks(env, t)
    && w.objects.files.Keys == (set d | d in t.objects.files && Sound(env, FileName(d)))
    && w.objects.symlinks.Keys == (set d | d in t.objects.symlinks && Sound(env, SymlinkName(d)))
  }

  lemma StartsComplete(env: Env, s: Store, req: Request, t: Store, k: Kept, w: Store, st: Start)
    requires Watched(env, s, req, t, k, w) && st in Starts(w)
    ensures WalkStart(w, st).missing == {} && WalkStart(w, st).reached <= k.generations
    ensures Claimed(w) == RootsOf(t, t.plans.Keys)
  {
    hide RootsOf, FollowsRecords, FollowsPins, KeptOf, RootsWithin, Part, Reachable, NeededPlans, LoadsHold, ManifestsHold, Seen, WalkFrom;
    SameRoots(w, t, t.plans.Keys);
    AllChosen(s, req, t);
    var roots := RootsOf(t, t.plans.Keys);
    StartIsRoot(w, t, roots, st);
    assert LineagesHold(t.generations, GenerationRoots(roots));
    assert LineageHolds(t.generations, (st.digest, st.limit));
    WalkComplete(w, st.namespace, st.digest, st.limit, {});
  }

  lemma StartIsRoot(w: Store, t: Store, roots: Roots, st: Start)
    requires roots == RootsOf(t, t.plans.Keys) && Claimed(w) == roots && w.catalog == t.catalog && w.generations == t.generations
    requires st in Starts(w)
    ensures (st.digest, st.limit) in GenerationRoots(roots)
  {
  }

  lemma NoRecordMissing(env: Env, s: Store, req: Request, t: Store, k: Kept, w: Store)
    requires Watched(env, s, req, t, k, w)
    ensures MissingHeads(w) == {} && MissingPoints(w) == {} && MissingInWalks(w) == {} && MissingBehindUnreached(w) == {} && MissingPlans(w) == {}
    ensures ReachedBy(w) <= k.generations && Claimed(w) == RootsOf(t, t.plans.Keys)
  {
    hide RootsOf, FollowsRecords, FollowsPins, KeptOf, RootsWithin, Part, Reachable, LoadsHold, ManifestsHold, Seen, WalkStart, Starts, LineagesHold, TargetsHold;
    SameRoots(w, t, t.plans.Keys);
    AllChosen(s, req, t);
    forall st | st in Starts(w) ensures WalkStart(w, st).missing == {} && WalkStart(w, st).reached <= k.generations {
      StartsComplete(env, s, req, t, k, w, st);
    }
  }

  // ----- Blobs, packs and canonical objects

  /** Files in the snapshots of surviving plans that nothing kept refers to. */
  ghost function LostSnapshots(s: Store, req: Request): set<Name> {
    set r, d | r in PlanRecords(s, KeptOf(s, req).plans) && d in FileBlobs(r.targets) && d !in KeptOf(s, req).blobs :: BlobName(d)
  }

  /** Packs that the surviving plans and the heads need, when the directory of monolithic packs is absent. */
  ghost function HiddenPacks(env: Env, s: Store, req: Request): set<Name> {
    var plans := KeptOf(s, req).plans;
    if env.packDirectory then {} else set d | d in PacksOf(s, RootsOf(s, plans), plans) :: PackName(d)
  }

  /** Needed entries that are stored but cannot be read: blobs, monolithic packs, and marked canonical objects. */
  ghost function Damaged(env: Env, t: Store, w: Store, marked: Marks): set<Name> {
    DamagedBlobs(env, t, w) + DamagedPacks(env, t, w) + set n | n in MarkNames(marked) && !Sound(env, n)
  }

  ghost function DamagedBlobs(env: Env, t: Store, w: Store): set<Name> {
    set d | d in NeededBlobs(w) && d in t.blobs && !Sound(env, BlobName(d)) :: BlobName(d)
  }

  ghost function DamagedPacks(env: Env, t: Store, w: Store): set<Name> {
    if !env.packDirectory then {} else set d | d in NeededPacks(w) && d !in t.manifests && !Sound(env, PackName(d)) :: PackName(d)
  }

  lemma BlobsFound(env: Env, s: Store, req: Request, t: Store, k: Kept, w: Store)
    requires Watched(env, s, req, t, k, w) && ReachedBy(w) <= k.generations && Claimed(w) == RootsOf(t, t.plans.Keys)
    ensures MissingBlobs(w) == LostSnapshots(s, req) + DamagedBlobs(env, t, w)
  {
    hide RootsOf, KeptOf, ReachedBy, Claimed, Reachable, NeededPlans, LoadsHold, ManifestsHold, Seen, LineagesHold, TargetsHold, RootsHold,
      GenerationBlobs, ArtifactBlobs, FileBlobs, PackRoots, TreeRoots, LinkRoots, ClosedUnderChildren, PinnedBlobs, PinnedMarks, PinnedPacks, PinnedPlans;
    var reach := ReachedBy(w);
    DerivedRootsWithin(RootsOf(t, t.plans.Keys), RootsOf(s, Chosen(s, req)));
    assert BlobsOf(w, Claimed(w), reach, w.plans.Keys) <= k.blobs by {
      BlobsKept(s, t, w, k, reach);
    }
    SamePlanRecords(s, t, w, k);
  }

  lemma SamePlanRecords(s: Store, t: Store, w: Store, k: Kept)
    requires Part(t, s) && w.plans == t.plans && t.plans.Keys == k.plans
    ensures PlanRecords(w, w.plans.Keys) == PlanRecords(s, k.plans)
  {
    hide ObjectsPart;
  }

  lemma BlobsKept(s: Store, t: Store, w: Store, k: Kept, reach: set<Digest>)
    requires Part(t, s) && FollowsRecords(s, k) && w.plans == t.plans && w.generations == t.generations
    requires t.plans.Keys == k.plans && reach <= k.generations && PinnedBlobs(Claimed(w)) <= k.blobs
    ensures BlobsOf(w, Claimed(w), reach, w.plans.Keys) <= k.blobs
  {
    hide Claimed, PinnedBlobs, GenerationBlobs, ArtifactBlobs, PackRoots, TreeRoots, LinkRoots, ClosedUnderChildren, ObjectsPart, FollowsPack;
    forall g | g in GenerationRecords(w, reach) ensures FollowsGeneration(k, g) {
    }
    forall p | p in PlanRecords(w, w.plans.Keys) ensures FollowsPlan(k, p) {
    }
  }

  lemma PacksFound(env: Env, s: Store, req: Request, t: Store, k: Kept, w: Store)
    requires Watched(env, s, req, t, k, w) && Claimed(w) == RootsOf(t, t.plans.Keys)
    ensures MissingPacks(w) == HiddenPacks(env, s, req) + DamagedPacks(env, t, w) && NeededPacks(w) <= k.packs
  {
    hide RootsOf, KeptOf, ReachedBy, Claimed, Reachable, NeededPlans, LoadsHold, LineagesHold, TargetsHold, RootsHold, VisiblePacks,
      GenerationBlobs, ArtifactBlobs, FileBlobs, PackRoots, TreeRoots, LinkRoots, ClosedUnderChildren, PinnedBlobs, PinnedMarks, PinnedPacks, PinnedPlans;
    SamePlanRecords(s, t, w, k);
    RootsShrink(t, s, k.plans, k.plans) by {
      assert forall h :: h in s.catalog && h.generation in s.generations ==> h.generation in t.generations;
    }
    assert NeededPacks(w) == PacksOf(s, RootsOf(s, k.plans), k.plans);
    assert NeededPacks(w) <= k.packs by {
      DerivedRootsWithin(RootsOf(t, t.plans.Keys), RootsOf(s, Chosen(s, req)));
      forall p | p in PlanRecords(s, k.plans) ensures FollowsPlan(k, p) {
      }
    }
    KeptPacksVisible(env, t, k);
  }

  lemma KeptPacksVisible(env: Env, t: Store, k: Kept)
    requires k.packs <= t.packs + t.manifests.Keys && ManifestsHold(env, t, k.packs)
    ensures forall d :: d in k.packs ==> (d in VisiblePacks(env, t) <==> env.packDirectory && (d in t.manifests || Sound(env, PackName(d))))
  {
    forall d | d in k.packs && d in t.manifests ensures Sound(env, ManifestName(d)) && ManifestComplete(env, t, t.manifests[d]) {
      assert forall m :: m in t.manifests[d].members ==> BlobHolds(env, t, m.blob, m.byteLen);
    }
  }

  lemma MarksFound(env: Env, s: Store, req: Request, t: Store, k: Kept, w: Store, marked: Marks)
    requires Watched(env, s, req, t, k, w) && ReachedBy(w) <= k.generations && Claimed(w) == RootsOf(t, t.plans.Keys)
    requires LeastClosed(w.objects.trees, NeededMarks(w), marked)
    ensures Absent(w.objects, marked) == (set n | n in MarkNames(marked) && !Sound(env, n)) && MarksWithin(marked, KeysOf(t.objects))
  {
    hide RootsOf, KeptOf, ReachedBy, Claimed, Reachable, NeededPlans, LoadsHold, ManifestsHold, Seen, LineagesHold, TargetsHold, RootsHold,
      GenerationBlobs, ArtifactBlobs, FileBlobs, PackRoots, TreeRoots, LinkRoots, PinnedBlobs, PinnedMarks, PinnedPacks, PinnedPlans, StateTrees, StateLinks,
      FollowsGeneration, FollowsPlan, FollowsPack, LeastClosed, MarkNames;
    DerivedRootsWithin(RootsOf(t, t.plans.Keys), RootsOf(s, Chosen(s, req)));
    assert RecordsPart(w, s);
    RecordsAgree(w, s, ReachedBy(w), w.plans.Keys);
    StateBelow(s, ReachedBy(w), w.plans.Keys, k);
    PartClosed(t.objects.trees, s.objects.trees, k.marks);
    LeastIsBelow(w.objects.trees, NeededMarks(w), marked, k.marks);
    UnsoundAbsent(env, t, w.objects, marked);
  }

  lemma UnsoundAbsent(env: Env, t: Store, seen: CanonicalObjects, marked: Marks)
    requires MarksWithin(marked, KeysOf(t.objects)) && seen.trees == t.objects.trees && CanonicalShaped(env, t)
    requires seen.files.Keys == (set d | d in t.objects.files && Sound(env, FileName(d)))
    requires seen.symlinks.Keys == (set d | d in t.objects.symlinks && Sound(env, SymlinkName(d)))
    ensures Absent(seen, marked) == set n | n in MarkNames(marked) && !Sound(env, n)
  {
  }

  lemma PartClosed(t: Trees, s: Trees, x: Marks)
    requires ClosedUnderChildren(s, x) && forall d :: d in t ==> d in s && t[d] == s[d]
    ensures ClosedUnderChildren(t, x)
  {
  }

  // ----- The agreement

  /** After any successful prune the check reports as missing exactly the snapshot files that nothing kept
      refers to, the packs it cannot see for want of a directory, and needed entries that cannot be read. */
  lemma CheckAfterPrune(env: Env, s: Store, req: Request, marked: Marks)
    requires Admissible(env, s, req)
    requires var w := Seen(env, Pruned(s, req)); LeastClosed(w.objects.trees, NeededMarks(w), marked)
    ensures var t := Pruned(s, req); var w := Seen(env, t);
      && Missing(w, marked) == LostSnapshots(s, req) + HiddenPacks(env, s, req) + Damaged(env, t, w, marked)
      && NeededPacks(w) <= t.packs + t.manifests.Keys && MarksWithin(marked, KeysOf(t.objects))
  {
    hide Admissible, Pruned, Seen, KeptOf, LostSnapshots, HiddenPacks, MissingHeads, MissingPoints, MissingInWalks, MissingBehindUnreached,
      MissingPlans, MissingBlobs, MissingPacks, Absent, ReachedBy, Claimed, NeededMarks, LeastClosed, DamagedBlobs, DamagedPacks, NeededPacks,
      RootsOf, Part, RootsHold, RecordsSound, CanonicalShaped, ManifestsHold, FollowsRecords, FollowsPins, RootsWithin, MarkNames, VisiblePacks;
    var t, k := Pruned(s, req), KeptOf(s, req);
    var w := Seen(env, t);
    PruneCompletes(env, s, req);
    SeenRecords(env, t);
    NoRecordMissing(env, s, req, t, k, w);
    BlobsFound(env, s, req, t, k, w);
    PacksFound(env, s, req, t, k, w);
    MarksFound(env, s, req, t, k, w, marked);
  }

  /** Everything left is readable. */
  ghost predicate Intact(env: Env, t: Store) {
    forall n :: OnDisk(t, n) ==> Sound(env, n)
  }

  lemma IntactIsUndamaged(env: Env, t: Store, w: Store, marked: Marks)
    requires Intact(env, t) && NeededPacks(w) <= t.packs + t.manifests.Keys && MarksWithin(marked, KeysOf(t.objects))
    ensures Damaged(env, t, w, marked) == {}
  {
    hide NeededPacks, NeededBlobs;
    forall d | d in t.blobs ensures Sound(env, BlobName(d)) { assert OnDisk(t, BlobName(d)); }
    forall d | d in t.packs ensures Sound(env, PackName(d)) { assert OnDisk(t, PackName(d)); }
    forall n | n in MarkNames(marked) ensures Sound(env, n) { assert OnDisk(t, n); }
  }

  /** So the check finds nothing missing exactly when every surviving plan finds the files of its snapshot among
      what is kept, no surviving pack is out of its sight, and no needed entry is damaged. */
  lemma CheckIsSilent(env: Env, s: Store, req: Request, marked: Marks)
    requires Admissible(env, s, req)
    requires var w := Seen(env, Pruned(s, req)); LeastClosed(w.objects.trees, NeededMarks(w), marked)
    ensures var k, t := KeptOf(s, req), Pruned(s, req);
      Missing(Seen(env, t), marked) == {} <==>
        (forall p :: p in k.plans && p in s.plans ==> FileBlobs(s.plans[p].targets) <= k.blobs)
        && (env.packDirectory || PacksOf(s, RootsOf(s, k.plans), k.plans) == {})
        && Damaged(env, t, Seen(env, t), marked) == {}
    ensures Intact(env, Pruned(s, req)) ==> Damaged(env, Pruned(s, req), Seen(env, Pruned(s, req)), marked) == {}
  {
    hide Admissible, Pruned, Seen, KeptOf, Missing, LeastClosed, Intact, NeededMarks, FileBlobs, PacksOf, RootsOf, Damaged, NeededPacks, MarksWithin;
    var k := KeptOf(s, req);
    CheckAfterPrune(env, s, req, marked);
    if Intact(env, Pruned(s, req)) {
      IntactIsUndamaged(env, Pruned(s, req), Seen(env, Pruned(s, req)), marked);
    }
    if p, d :| p in k.plans && p in s.plans && d in FileBlobs(s.plans[p].targets) && d !in k.blobs {
      assert s.plans[p] in PlanRecords(s, k.plans) && BlobName(d) in LostSnapshots(s, req);
    }
    if !env.packDirectory && PacksOf(s, RootsOf(s, k.plans), k.plans) != {} {
      var d :| d in PacksOf(s, RootsOf(s, k.plans), k.plans);
      assert PackName(d) in HiddenPacks(env, s, req);
    }
  }

  /** Plans that list the files of their snapshot among their artifacts are always silent in this respect. */
  lemma ListedSnapshotsKept(env: Env, s: Store, req: Request)
    requires RootsHold(env, s, req)
    requires forall p :: p in s.plans ==> FileBlobs(s.plans[p].targets) <= ArtifactBlobs(s.plans[p])
    ensures LostSnapshots(s, req) == {}
  {
    hide KeptOf, RootsHold, FileBlobs, ArtifactBlobs, FollowsHistory, FollowsPins, RootsOf, ClosedUnderChildren, PackRoots, TreeRoots, LinkRoots;
    var k := KeptOf(s, req);
    KeptIsLeast(env, s, req);
    forall p | p in k.plans && p in s.plans ensures FileBlobs(s.plans[p].targets) <= k.blobs {
      assert FollowsPlan(k, s.plans[p]);
    }
  }

  // ----- Both exceptions occur

  const NO_CLAIMS := Authority(1, [], [])

  /** A plan that installs a file it does not list as an artifact, and uses a deduplicated pack. */
  ghost function Unlisted(): Store {
    var plan := Plan([], None, 0, None, NO_CLAIMS, None, [FileTarget(Some(FileRef(SECOND, 0)))], SECOND, [], [], [Component(FIRST)]);
    Store([], map[], map[FIRST := plan], {SECOND}, {}, map[FIRST := Manifest([])], NO_OBJECTS)
  }

  const NO_REQUEST := Request({}, false)

  lemma UnlistedRoots()
    ensures var s := Unlisted();
      RootsOf(s, Chosen(s, NO_REQUEST)) == Roots({}, {}, {}) && RootsOf(s, {FIRST}) == Roots({}, {}, {})
  {
    var s := Unlisted();
    assert Chosen(s, NO_REQUEST) == {FIRST} && HeadRecords(s) == {} && PlanRecords(s, {FIRST}) == {s.plans[FIRST]};
    var x := RootsOf(s, {FIRST});
    assert x.histories == {} && x.points == {} && x.pins == {};
  }

  lemma UnlistedKept()
    ensures KeptOf(Unlisted(), NO_REQUEST) == Kept({}, {FIRST}, {}, {FIRST}, Marks({}, {}, {}))
    ensures PacksOf(Unlisted(), Roots({}, {}, {}), {FIRST}) == {FIRST}
  {
    hide RootsOf, PacksOf, BlobsOf, MemberBlobs, ClosureOf;
    var s, roots := Unlisted(), Roots({}, {}, {});
    UnlistedRoots();
    assert Reachable(s.generations, roots) == {};
    assert Survivors(s, NO_REQUEST, {}) == {FIRST};
    assert PinnedPlans(roots) == {} && PinnedMarks(roots) == Marks({}, {}, {});
    assert NeededPlans(s, roots, {}) == {};
    UnlistedNeeds();
    UnlistedMarks();
    NoClosure();
  }

  lemma UnlistedNeeds()
    ensures var s, roots := Unlisted(), Roots({}, {}, {});
      PacksOf(s, roots, {FIRST}) == {FIRST} && BlobsOf(s, roots, {}, {FIRST}) == {} && MemberBlobs(s, {FIRST}) == {}
  {
    var s, roots := Unlisted(), Roots({}, {}, {});
    assert PinnedBlobs(roots) == {} && PinnedPacks(roots) == {};
    var p := s.plans[FIRST];
    assert PlanRecords(s, {FIRST}) == {p} && GenerationRecords(s, {}) == {};
    assert p.transforms == [Component(FIRST)] && p.inputs == [] && PackRoots(p) == {FIRST};
    assert ArtifactBlobs(p) == {};
  }

  lemma UnlistedMarks()
    ensures var s := Unlisted(); StateTrees(s, {}, {FIRST}) == {} && StateLinks(s, {}, {FIRST}) == {}
  {
    var s := Unlisted();
    var p := s.plans[FIRST];
    assert PlanRecords(s, {FIRST}) == {p} && GenerationRecords(s, {}) == {};
    assert forall t :: t in p.targets ==> t.FileTarget?;
    assert TreeRoots(p.targets, p.trackedRoot) == {} && LinkRoots(p.targets) == {};
  }

  lemma UnlistedInBudget()
    ensures WithinBudget(NOTHING_CHECKED, Unlisted(), Roots({}, {}, {}), Kept({}, {FIRST}, {}, {FIRST}, Marks({}, {}, {})))
    ensures LoadsHold(NOTHING_CHECKED, Unlisted(), Roots({}, {}, {}))
  {
    hide Loads, LoadItems, LoadBytes, StateTrees, StateLinks, RecordNames, ManifestNames, TreeNames;
    var s, env, k := Unlisted(), NOTHING_CHECKED, Kept({}, {FIRST}, {}, {FIRST}, Marks({}, {}, {}));
    UnlistedMarks();
    EmptyLoad(env, s);
    assert PinnedMarks(Roots({}, {}, {})) == Marks({}, {}, {});
    assert s.plans.Keys == {FIRST} && s.generations.Keys == {};
    NothingWeighs(RecordNames(s));
    NothingWeighs(ManifestNames(s, k.packs));
    NothingWeighs(TreeNames(s));
  }

  lemma UnlistedAdmissible()
    ensures Admissible(NOTHING_CHECKED, Unlisted(), NO_REQUEST)
  {
    hide KeptOf, RootsOf, WithinBudget, LoadsHold, KeptWith, Acyclic, PredecessorEdge, GenerationRoots, Reachable, NeededPlans;
    var s, roots := Unlisted(), Roots({}, {}, {});
    UnlistedRoots();
    UnlistedKept();
    UnlistedInBudget();
    NoHistory(s.generations, s);
    assert Selected(s) == [];
  }

  /** A prune that removes the file although its plan survives, and keeps a pack the check will not see. */
  lemma CheckMayComplain()
    ensures var s := Unlisted();
      && Admissible(NOTHING_CHECKED, s, NO_REQUEST)
      && BlobName(SECOND) in LostSnapshots(s, NO_REQUEST) && BlobName(SECOND) in Garbage(s, NO_REQUEST)
      && PackName(FIRST) in HiddenPacks(NOTHING_CHECKED, s, NO_REQUEST) && ManifestName(FIRST) in NamesOf(Pruned(s, NO_REQUEST))
  {
    hide KeptOf, RootsOf, PacksOf, Garbage, NamesOf, Admissible;
    var s := Unlisted();
    UnlistedAdmissible();
    UnlistedRoots();
    UnlistedKept();
    var p := s.plans[FIRST];
    assert p in PlanRecords(s, {FIRST}) && p.targets[0] in p.targets && SECOND in FileBlobs(p.targets);
    GarbageMember(s, NO_REQUEST, BlobName(SECOND));
    GarbageMember(s, NO_REQUEST, ManifestName(FIRST));
    NamesOfMember(Pruned(s, NO_REQUEST), ManifestName(FIRST));
  }
}
