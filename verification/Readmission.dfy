/** The store left behind by an interrupted prune is admissible again. */
module Readmission {
  import opened Base
  import opened Graphs
  import opened Canonical
  import opened Names
  import opened TreeGraph
  import opened TreeClosure
  import opened Loader
  import opened Store
  import opened RemovalOrder
  import opened Retention
  import opened RetentionClosure
  import opened Remnant
  import opened CrashSafety

  /** A generation that its full transition rebuilds is also rebuilt without its predecessor. */
  ghost predicate Coherent(env: Env) {
    forall g, p :: env.transition(Some(g), p) ==> env.retained(p)
  }

  /** An interrupted prune: `t` is left of `s`, and `k` is what was to be kept. */
  ghost predicate Interrupted(env: Env, s: Store, req: Request, t: Store, k: Kept) {
    && k == KeptOf(s, req) && Closed(s, req, k) && KeptStored(s, k)
    && Part(t, s) && Preserved(t, s, k) && InOrder(t, s, k)
  }

  // ----- Checks that do not depend on the request

  lemma ShapesHold(env: Env, s: Store, t: Store, k: Kept)
    requires Part(t, s) && InOrder(t, s, k)
    requires RecordsSound(env, s) && PacksShaped(env, s) && CanonicalShaped(env, s)
    ensures RecordsSound(env, t) && PacksShaped(env, t) && CanonicalShaped(env, t)
  {
  }

  lemma ArtifactsStillHold(env: Env, s: Store, t: Store, k: Kept)
    requires Part(t, s) && Preserved(t, s, k) && InOrder(t, s, k) && FollowsRecords(s, k) && ArtifactsHold(env, s)
    ensures ArtifactsHold(env, t)
  {
    hide ClosedUnderChildren, ObjectsPart, ObjectsPreserved, FollowsGeneration, FollowsPack;
    forall p, a | p in t.plans && a in t.plans[p].artifacts ensures BlobHolds(env, t, a.digest, a.byteLen) {
      assert BlobHolds(env, s, a.digest, a.byteLen);
      if t.plans.Keys <= k.plans {
        assert FollowsPlan(k, s.plans[p]);
        assert a.digest in ArtifactBlobs(s.plans[p]);
      }
    }
  }

  lemma GenerationsStillRebuild(env: Env, s: Store, t: Store, k: Kept)
    requires Coherent(env) && Part(t, s) && Preserved(t, s, k) && InOrder(t, s, k) && FollowsRecords(s, k) && GenerationsRebuild(env, s)
    ensures GenerationsRebuild(env, t)
  {
    hide ClosedUnderChildren, ObjectsPart, ObjectsPreserved, FollowsPlan, FollowsPack, Produced;
    forall d | d in t.generations ensures Rebuilds(env, t.generations, t.plans, t.generations[d]) {
      var g := s.generations[d];
      assert Rebuilds(env, s.generations, s.plans, g);
      if t.generations.Keys <= k.generations {
        assert FollowsGeneration(k, g);
      }
      assert g.planId in t.plans;
    }
  }

  lemma HeadsStillHold(env: Env, s: Store, t: Store)
    requires Part(t, s) && HeadsHold(env, s)
    requires forall h :: h in s.catalog && h.generation in s.generations ==> h.generation in t.generations
    ensures HeadsHold(env, t)
  {
    hide ObjectsPart;
    assert Selected(t) == Selected(s);
  }

  lemma StoreStillHolds(env: Env, s: Store, req: Request, t: Store, k: Kept)
    requires Coherent(env) && Interrupted(env, s, req, t, k) && StoreHolds(env, s)
    ensures StoreHolds(env, t)
  {
    hide Part, Preserved, InOrder, KeptOf, FollowsRecords, FollowsPins, FollowsHistory, RootsOf, Reachable, RecordsSound, ArtifactsHold, GenerationsRebuild, HeadsHold, PacksShaped, CanonicalShaped;
    ShapesHold(env, s, t, k);
    ArtifactsStillHold(env, s, t, k);
    GenerationsStillRebuild(env, s, t, k);
    HeadsPreserved(s, req, t);
    HeadsStillHold(env, s, t);
  }

  lemma HeadsPreserved(s: Store, req: Request, t: Store)
    requires Preserved(t, s, KeptOf(s, req))
    ensures forall h :: h in s.catalog && h.generation in s.generations ==> h.generation in t.generations
  {
    hide RootsOf, Reachable, ObjectsPreserved;
    HeadsReached(s, Chosen(s, req));
    KeptGenerations(s, req);
  }

  // ----- Loads

  ghost function Covered(x: Marks, roots: set<Digest>, direct: set<Digest>): bool { roots <= x.trees && direct <= x.symlinks }

  /** What could be loaded can still be loaded, at the same cost, when its closure is preserved. */
  lemma LoadAgrees(env: Env, s: Store, t: Store, x: Marks, roots: set<Digest>, direct: set<Digest>)
    requires ObjectsPart(t.objects, s.objects) && ObjectsPreserved(t.objects, s.objects, x) && ClosedUnderChildren(s.objects.trees, x)
    requires Covered(x, roots, direct)
    ensures Loads(env, s, roots, direct) ==> Loads(env, t, roots, direct)
    ensures LoadItems(t, roots, direct) == LoadItems(s, roots, direct) && LoadBytes(env, t, roots, direct) == LoadBytes(env, s, roots, direct)
  {
    hide AgreeOn, ClosedUnderChildren, ClosureOf, UnfoldTree, ValidTree, MarkNames, ObjectsPart, ObjectsPreserved;
    PreservedAgree(t.objects, s.objects, x);
    var both := Marks({}, direct, roots);
    ClosureAgrees(t.objects, s.objects, x, both);
    WorkAgrees(t.objects.trees, s.objects.trees, roots);
    if Loads(env, s, roots, direct) {
      forall r | r in roots ensures ValidTree(t.objects, r) {
        ValidTreeLocal(s.objects, t.objects, x, r);
      }
      ReadablePart(env, s, t, x, ClosureOf(s.objects.trees, both));
    }
  }

  lemma ReadablePart(env: Env, s: Store, t: Store, x: Marks, y: Marks)
    requires ObjectsPreserved(t.objects, s.objects, x) && MarksWithin(y, x) && Readable(DiskOf(env, s), y)
    ensures Readable(DiskOf(env, t), y)
  {
  }

  lemma WorkAgrees(a: Trees, b: Trees, roots: set<Digest>)
    requires forall r :: r in roots ==> UnfoldTree(a, r, [], 0) == UnfoldTree(b, r, [], 0)
    ensures Work(a, roots) == Work(b, roots)
  {
    SumOverAgrees(roots, r => RootWork(a, r), r => RootWork(b, r));
  }

  lemma LoadsFewer(env: Env, s: Store, roots: set<Digest>, direct: set<Digest>, allRoots: set<Digest>, allDirect: set<Digest>)
    requires roots <= allRoots && direct <= allDirect
    ensures Loads(env, s, allRoots, allDirect) ==> Loads(env, s, roots, direct)
    ensures LoadItems(s, roots, direct) <= LoadItems(s, allRoots, allDirect)
    ensures LoadBytes(env, s, roots, direct) <= LoadBytes(env, s, allRoots, allDirect)
  {
    hide ClosureOf, ValidTree, RootWork, MarkNames, MarksWithin, Readable;
    ClosureMonotone(s.objects.trees, Marks({}, direct, roots), Marks({}, allDirect, allRoots)) by {
      assert MarksWithin(Marks({}, direct, roots), Marks({}, allDirect, allRoots)) by { RootsBelow(roots, direct, allRoots, allDirect); }
    }
    var few, many := ClosureOf(s.objects.trees, Marks({}, direct, roots)), ClosureOf(s.objects.trees, Marks({}, allDirect, allRoots));
    SumOverMonotone(roots, allRoots, r => RootWork(s.objects.trees, r));
    ReadableLess(DiskOf(env, s), few, many);
    BytesMonotone(DiskOf(env, s), few, many);
    assert few.symlinks <= many.symlinks by { LinksBelow(few, many); }
    SmallerSubset(few.symlinks, many.symlinks);
  }

  lemma RootsBelow(roots: set<Digest>, direct: set<Digest>, allRoots: set<Digest>, allDirect: set<Digest>)
    requires roots <= allRoots && direct <= allDirect
    ensures MarksWithin(Marks({}, direct, roots), Marks({}, allDirect, allRoots))
  {
  }

  lemma LinksBelow(a: Marks, b: Marks)
    requires MarksWithin(a, b)
    ensures a.symlinks <= b.symlinks
  {
  }

  ghost predicate LoadsSmaller(env: Env, s: Store, t: Store, roots: set<Digest>, direct: set<Digest>, allRoots: set<Digest>, allDirect: set<Digest>) {
    && (Loads(env, s, allRoots, allDirect) ==> Loads(env, t, roots, direct))
    && LoadItems(t, roots, direct) <= LoadItems(s, allRoots, allDirect)
    && LoadBytes(env, t, roots, direct) <= LoadBytes(env, s, allRoots, allDirect)
  }

  lemma LoadShrinks(env: Env, s: Store, t: Store, x: Marks, roots: set<Digest>, direct: set<Digest>, allRoots: set<Digest>, allDirect: set<Digest>)
    requires ObjectsPart(t.objects, s.objects) && ObjectsPreserved(t.objects, s.objects, x) && ClosedUnderChildren(s.objects.trees, x)
    requires roots <= allRoots && direct <= allDirect && (Covered(x, roots, direct) || t.objects == s.objects)
    ensures LoadsSmaller(env, s, t, roots, direct, allRoots, allDirect)
  {
    hide Loads, LoadItems, LoadBytes, ObjectsPart, ObjectsPreserved, ClosedUnderChildren;
    LoadsFewer(env, s, roots, direct, allRoots, allDirect);
    if t.objects == s.objects {
      SameObjectsLoad(env, s, t, roots, direct);
    } else {
      LoadAgrees(env, s, t, x, roots, direct);
    }
  }

  lemma SameObjectsLoad(env: Env, s: Store, t: Store, roots: set<Digest>, direct: set<Digest>)
    requires t.objects == s.objects
    ensures Loads(env, t, roots, direct) <==> Loads(env, s, roots, direct)
    ensures LoadItems(t, roots, direct) == LoadItems(s, roots, direct) && LoadBytes(env, t, roots, direct) == LoadBytes(env, s, roots, direct)
  {
  }

  /** The load of everything recorded. */
  lemma RecordedLoadShrinks(env: Env, s: Store, t: Store, k: Kept)
    requires Part(t, s) && Preserved(t, s, k) && InOrder(t, s, k) && FollowsRecords(s, k)
    ensures LoadsSmaller(env, s, t, StateTrees(t, t.generations.Keys, t.plans.Keys), StateLinks(t, t.generations.Keys, t.plans.Keys),
              StateTrees(s, s.generations.Keys, s.plans.Keys), StateLinks(s, s.generations.Keys, s.plans.Keys))
  {
    hide StateTrees, StateLinks, ClosedUnderChildren, LoadsSmaller, ObjectsPart, ObjectsPreserved, FollowsGeneration, FollowsPlan, FollowsPack;
    var gens, plans := t.generations.Keys, t.plans.Keys;
    RecordsAgree(t, s, gens, plans);
    StateSubset(s, gens, plans);
    if t.objects != s.objects {
      StateBelow(s, gens, plans, k);
    }
    LoadShrinks(env, s, t, k.marks, StateTrees(t, gens, plans), StateLinks(t, gens, plans),
      StateTrees(s, s.generations.Keys, s.plans.Keys), StateLinks(s, s.generations.Keys, s.plans.Keys));
  }

  /** The load of what is retained. */
  lemma RetainedLoadShrinks(env: Env, s: Store, t: Store, k: Kept, gens: set<Digest>, plans: set<PlanId>)
    requires Part(t, s) && Preserved(t, s, k) && FollowsRecords(s, k)
    requires gens <= k.generations && plans <= k.plans && k.generations <= s.generations.Keys && k.plans <= s.plans.Keys
    ensures LoadsSmaller(env, s, t, StateTrees(t, gens, plans), StateLinks(t, gens, plans), StateTrees(s, k.generations, k.plans), StateLinks(s, k.generations, k.plans))
  {
    hide StateTrees, StateLinks, ClosedUnderChildren, LoadsSmaller, ObjectsPart, ObjectsPreserved, FollowsGeneration, FollowsPlan, FollowsPack;
    RecordsAgree(t, s, gens, plans);
    StateBelow(s, gens, plans, k);
    StateMonotone(s, gens, plans, k.generations, k.plans);
    LoadShrinks(env, s, t, k.marks, StateTrees(t, gens, plans), StateLinks(t, gens, plans),
      StateTrees(s, k.generations, k.plans), StateLinks(s, k.generations, k.plans));
  }

  lemma StateMonotone(s: Store, gens: set<Digest>, plans: set<PlanId>, g: set<Digest>, p: set<PlanId>)
    requires gens <= g && plans <= p
    ensures StateTrees(s, gens, plans) <= StateTrees(s, g, p) && StateLinks(s, gens, plans) <= StateLinks(s, g, p)
  {
    hide TreeRoots, LinkRoots;
    assert GenerationRecords(s, gens) <= GenerationRecords(s, g) && PlanRecords(s, plans) <= PlanRecords(s, p);
  }

  /** The load of what is pinned. */
  lemma PinnedLoadShrinks(env: Env, s: Store, t: Store, k: Kept, few: Roots, many: Roots)
    requires Part(t, s) && Preserved(t, s, k) && FollowsRecords(s, k) && FollowsPins(many, k) && RootsWithin(few, many)
    ensures LoadsSmaller(env, s, t, PinnedMarks(few).trees, PinnedMarks(few).symlinks, PinnedMarks(many).trees, PinnedMarks(many).symlinks)
  {
    hide PinnedMarks, PinnedBlobs, PinnedPlans, PinnedPacks, ClosedUnderChildren, LoadsSmaller, ObjectsPart, ObjectsPreserved, FollowsGeneration, FollowsPlan, FollowsPack;
    DerivedRootsWithin(few, many);
    LoadShrinks(env, s, t, k.marks, PinnedMarks(few).trees, PinnedMarks(few).symlinks, PinnedMarks(many).trees, PinnedMarks(many).symlinks);
  }

  // ----- Roots

  lemma PointsStillHold(t: Generations, s: Generations, few: Roots, many: Roots)
    requires forall d :: d in t ==> d in s && t[d] == s[d]
    requires RootsWithin(few, many) && Reachable(s, many) <= t.Keys && PointsHold(s, many.points)
    ensures PointsHold(t, few.points)
  {
    forall p | p in few.points ensures p.generation in t && PointMatches(p, p.generation, t[p.generation]) {
      var root := (p.generation, 1);
      assert root in GenerationRoots(many);
      assert Ancestor(s, root.0, 0) == Some(p.generation);
      assert Within(s, root, p.generation);
      assert p.generation in Reachable(s, many);
    }
  }

  lemma TargetsStillHold(env: Env, s: Store, t: Store, k: Kept, reach: set<Digest>)
    requires Part(t, s) && Preserved(t, s, k) && FollowsRecords(s, k) && reach <= k.generations && TargetsHold(env, s, k.generations)
    ensures TargetsHold(env, t, reach)
  {
    hide ClosedUnderChildren, ObjectsPart, ObjectsPreserved, FollowsPlan, FollowsPack;
    forall d, x | d in reach && d in t.generations && x in t.generations[d].targets && x.FileTarget? && x.file.Some?
      ensures BlobHolds(env, t, x.file.value.digest, x.file.value.byteLen)
    {
      assert FollowsGeneration(k, s.generations[d]);
      assert x.file.value.digest in FileBlobs(s.generations[d].targets);
      assert BlobHolds(env, s, x.file.value.digest, x.file.value.byteLen);
    }
  }

  lemma RootsStillHold(env: Env, s: Store, req: Request, t: Store, k: Kept)
    requires Interrupted(env, s, req, t, k) && RootsHold(env, s, req)
    ensures RootsHold(env, t, Remaining(req, t))
  {
    hide Part, Preserved, InOrder, FollowsRecords, FollowsPins, FollowsHistory, RootsOf, Reachable, NeededPlans, PinnedMarks,
      PointsHold, LineagesHold, TargetsHold, Loads, GenerationRoots, KeptWith, KeptStored, StateTrees, StateLinks, LoadItems, LoadBytes;
    var req2 := Remaining(req, t);
    var roots, roots2 := RootsOf(s, Chosen(s, req)), RootsOf(t, Chosen(t, req2));
    var reach2 := Reachable(t.generations, roots2);
    NextRun(env, s, req, t);
    KeptGenerations(s, req);
    PartGenerations(s, t);
    PointsStillHold(t.generations, s.generations, roots2, roots);
    TargetsStillHold(env, s, t, k, reach2);
    RecordedLoadShrinks(env, s, t, k);
    PinnedLoadShrinks(env, s, t, k, roots2, roots);
    SurvivorsNeeded(env, s, req);
  }

  lemma PartGenerations(s: Store, t: Store)
    requires Part(t, s)
    ensures forall d :: d in t.generations ==> d in s.generations && t.generations[d] == s.generations[d]
  {
  }

  // ----- Kept entries

  lemma ManifestsStillHold(env: Env, s: Store, t: Store, k: Kept, packs: set<Digest>)
    requires Part(t, s) && Preserved(t, s, k) && FollowsRecords(s, k) && packs <= k.packs && ManifestsHold(env, s, k.packs)
    ensures ManifestsHold(env, t, packs)
  {
    hide ClosedUnderChildren, ObjectsPart, ObjectsPreserved, FollowsPlan, FollowsGeneration;
    forall d | d in packs && d in t.manifests
      ensures Sound(env, ManifestName(d)) && forall m :: m in t.manifests[d].members ==> BlobHolds(env, t, m.blob, m.byteLen)
    {
      assert FollowsPack(k, s.manifests[d]);
    }
  }

  lemma KeptStillStored(s: Store, t: Store, k: Kept, k2: Kept)
    requires Preserved(t, s, k) && KeptStored(s, k) && KeptWithin(k2, k)
    ensures KeptStored(t, k2)
  {
  }

  lemma StillAcyclic(t: Generations, s: Generations, some: set<Digest>, all: set<Digest>)
    requires forall d :: d in t ==> d in s && t[d] == s[d]
    requires some <= all && some <= t.Keys && Acyclic(PredecessorEdge(s, all))
    ensures Acyclic(PredecessorEdge(t, some))
  {
    var e, f := PredecessorEdge(t, some), PredecessorEdge(s, all);
    assert forall a, b :: e(a, b) ==> f(a, b);
    FewerEdgesAcyclic(e, f);
  }

  lemma FewerEdgesAcyclic(e: (Digest, Digest) -> bool, f: (Digest, Digest) -> bool)
    requires Acyclic(f) && forall a, b :: e(a, b) ==> f(a, b)
    ensures Acyclic(e)
  {
    forall w | IsCycle(e, w) ensures IsCycle(f, w) {
    }
  }

  /** What an explicit prune could remove it can still remove. */
  lemma StillRemovable(env: Env, s: Store, t: Store, k: Kept)
    requires Part(t, s) && Removable(env, s, k)
    ensures Removable(env, t, k)
  {
    hide Acyclic, PredecessorEdge, ObjectsPart;
    StillAcyclic(t.generations, s.generations, t.generations.Keys - k.generations, s.generations.Keys - k.generations);
  }

  // ----- Budgets

  lemma DirectoriesStillBounded(s: Store, t: Store)
    requires Part(t, s) && DirectoriesBounded(s)
    ensures DirectoriesBounded(t)
  {
    SmallerSubset(t.generations.Keys, s.generations.Keys);
    SmallerSubset(t.plans.Keys, s.plans.Keys);
    SmallerSubset(t.blobs, s.blobs);
    SmallerSubset(t.packs, s.packs);
    SmallerSubset(t.manifests.Keys, s.manifests.Keys);
    SmallerSubset(t.objects.files.Keys, s.objects.files.Keys);
    SmallerSubset(t.objects.symlinks.Keys, s.objects.symlinks.Keys);
    SmallerSubset(t.objects.trees.Keys, s.objects.trees.Keys);
  }

  lemma NamesShrink(env: Env, s: Store, t: Store, few: set<Digest>, many: set<Digest>)
    requires Part(t, s) && few <= many
    ensures SumOver(RecordNames(t), env.sizes) <= SumOver(RecordNames(s), env.sizes)
    ensures SumOver(ManifestNames(t, few), env.sizes) <= SumOver(ManifestNames(s, many), env.sizes)
    ensures SumOver(TreeNames(t), env.sizes) <= SumOver(TreeNames(s), env.sizes)
  {
    SumOverMonotone(RecordNames(t), RecordNames(s), env.sizes);
    SumOverMonotone(ManifestNames(t, few), ManifestNames(s, many), env.sizes);
    SumOverMonotone(TreeNames(t), TreeNames(s), env.sizes);
  }

  lemma StillWithinBudget(env: Env, s: Store, t: Store, k: Kept, k2: Kept, few: Roots, many: Roots)
    requires Part(t, s) && Preserved(t, s, k) && InOrder(t, s, k) && FollowsRecords(s, k) && FollowsPins(many, k)
    requires RootsWithin(few, many) && KeptWithin(k2, k) && k.generations <= s.generations.Keys && k.plans <= s.plans.Keys
    requires WithinBudget(env, s, many, k)
    ensures WithinBudget(env, t, few, k2)
  {
    hide Part, Preserved, InOrder, FollowsRecords, FollowsPins, RootsWithin, DirectoriesBounded, PinnedMarks, StateTrees, StateLinks,
      Loads, LoadItems, LoadBytes, RecordNames, ManifestNames, TreeNames, MarksWithin;
    DirectoriesStillBounded(s, t);
    NamesShrink(env, s, t, k2.packs, k.packs);
    RecordedLoadShrinks(env, s, t, k);
    RetainedLoadShrinks(env, s, t, k, k2.generations, k2.plans);
    PinnedLoadShrinks(env, s, t, k, few, many);
  }

  // ----- The next run

  /** Wherever a prune stops, everything the next one is to keep is in order, and it keeps no more than the
      first; for an explicit request it keeps exactly the same. */
  lemma StillRetainable(env: Env, s: Store, req: Request, r: set<Name>)
    requires Coherent(env) && Retainable(env, s, req) && CrashState(s, req, r)
    ensures var t := Without(s, r);
      && Retainable(env, t, Remaining(req, t)) && Part(t, s) && Preserved(t, s, KeptOf(s, req))
      && KeptWithin(KeptOf(t, Remaining(req, t)), KeptOf(s, req))
      && (!req.sweep ==> KeptOf(t, Remaining(req, t)) == KeptOf(s, req))
  {
    hide Without, KeptOf, RootsOf, StoreHolds, RootsHold, WithinBudget, Part, Preserved, InOrder, FollowsRecords, FollowsPins, FollowsHistory,
      KeptWithin, RootsWithin, Reachable, NeededPlans, Survivors, CrashState, KeptStored, ManifestsHold;
    var t, k := Without(s, r), KeptOf(s, req);
    var k2 := KeptOf(t, Remaining(req, t));
    PhasesInOrder(s, req, r);
    KeptIsLeast(env, s, req);
    assert Interrupted(env, s, req, t, k);
    KeptShrinks(env, s, req, t);
    StoreStillHolds(env, s, req, t, k);
    RootsStillHold(env, s, req, t, k);
    PacksWithin(k2, k);
    ManifestsStillHold(env, s, t, k, k2.packs);
    KeptStillStored(s, t, k, k2);
    NextRun(env, s, req, t);
    KeptGenerations(s, req);
    StillWithinBudget(env, s, t, k, k2, RootsOf(t, Chosen(t, Remaining(req, t))), RootsOf(s, Chosen(s, req)));
  }

  lemma PacksWithin(a: Kept, b: Kept)
    requires KeptWithin(a, b)
    ensures a.packs <= b.packs
  {
  }

  /** Wherever a prune stops, the next one is admitted exactly when what it is to remove can go: always after
      an explicit prune, and after a sweep exactly when the blobs and generations that the first sweep kept
      and the next one does not are in shape and in order. */
  lemma Readmitted(env: Env, s: Store, req: Request, r: set<Name>)
    requires Coherent(env) && Admissible(env, s, req) && CrashState(s, req, r)
    ensures var t := Without(s, r); var k := KeptOf(t, Remaining(req, t));
      && Retainable(env, t, Remaining(req, t)) && KeptWithin(k, KeptOf(s, req))
      && (Admissible(env, t, Remaining(req, t)) <==> Removable(env, t, k))
      && (!req.sweep ==> Admissible(env, t, Remaining(req, t)) && k == KeptOf(s, req))
  {
    hide Admissible, Retainable, Removable, Without, KeptOf, KeptWithin, Part, Preserved, CrashState;
    var t := Without(s, r);
    AdmissibleMeans(env, s, req);
    AdmissibleMeans(env, t, Remaining(req, t));
    StillRetainable(env, s, req, r);
    StillRemovable(env, s, t, KeptOf(s, req));
  }
}
