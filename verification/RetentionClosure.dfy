/** What a prune keeps is the least set of entries closed under the retention rules. */
module RetentionClosure {
  import opened Base
  import opened Canonical
  import opened TreeGraph
  import opened TreeClosure
  import opened Loader
  import opened Store
  import opened Retention

  ghost predicate KeptWithin(a: Kept, b: Kept) {
    && a.generations <= b.generations && a.plans <= b.plans && a.blobs <= b.blobs && a.packs <= b.packs
    && MarksWithin(a.marks, b.marks)
  }

  // ----- The rules

  /** Bounded histories, restore points and pinned generations. */
  ghost predicate FollowsHistory(s: Store, roots: Roots, k: Kept) {
    forall root, d :: root in GenerationRoots(roots) && d in s.generations && Within(s.generations, root, d) ==> d in k.generations
  }

  ghost predicate FollowsPins(roots: Roots, k: Kept) {
    && PinnedPlans(roots) <= k.plans && PinnedBlobs(roots) <= k.blobs && PinnedPacks(roots) <= k.packs
    && MarksWithin(PinnedMarks(roots), k.marks)
  }

  ghost predicate FollowsGeneration(k: Kept, g: Generation) {
    && g.planId in k.plans && GenerationBlobs(g) <= k.blobs
    && TreeRoots(g.targets, g.trackedRoot) <= k.marks.trees && LinkRoots(g.targets) <= k.marks.symlinks
  }

  ghost predicate FollowsPlan(k: Kept, p: Plan) {
    && ArtifactBlobs(p) <= k.blobs && PackRoots(p) <= k.packs
    && TreeRoots(p.targets, p.trackedRoot) <= k.marks.trees && LinkRoots(p.targets) <= k.marks.symlinks
  }

  ghost predicate FollowsPack(k: Kept, m: Manifest) {
    forall x :: x in m.members ==> x.blob in k.blobs
  }

  ghost predicate FollowsRecords(s: Store, k: Kept) {
    && (forall d :: d in k.generations && d in s.generations ==> FollowsGeneration(k, s.generations[d]))
    && (forall p :: p in k.plans && p in s.plans ==> FollowsPlan(k, s.plans[p]))
    && (forall d :: d in k.packs && d in s.manifests ==> FollowsPack(k, s.manifests[d]))
    && ClosedUnderChildren(s.objects.trees, k.marks)
  }

  /** All the rules.  A sweep differs from an explicit request in one of them only: it does not keep a
      plan merely because nobody asked for its removal. */
  ghost predicate Closed(s: Store, req: Request, k: Kept) {
    var roots := RootsOf(s, Chosen(s, req));
    && FollowsHistory(s, roots, k) && FollowsPins(roots, k) && FollowsRecords(s, k)
    && (!req.sweep ==> Chosen(s, req) <= k.plans)
  }

  // ----- Closed, and least

  lemma ClosureOfJoin(trees: Trees, a: Marks, b: Marks)
    ensures ClosureOf(trees, Join2(a, b)) == Join2(ClosureOf(trees, a), ClosureOf(trees, b))
  {
    hide UnfoldTree;
    var x, y, z := ClosureOf(trees, Join2(a, b)), ClosureOf(trees, a), ClosureOf(trees, b);
    assert x.files == y.files + z.files;
    assert x.symlinks == y.symlinks + z.symlinks;
    assert x.trees == y.trees + z.trees;
  }

  /** The canonical roots of everything kept. */
  ghost function MarkRootsOf(s: Store, roots: Roots, reach: set<Digest>, plans: set<PlanId>): Marks {
    Join2(Marks({}, StateLinks(s, reach, plans), StateTrees(s, reach, plans)), PinnedMarks(roots))
  }

  lemma StateSubset(s: Store, reach: set<Digest>, plans: set<PlanId>)
    requires reach <= s.generations.Keys && plans <= s.plans.Keys
    ensures StateTrees(s, reach, plans) <= StateTrees(s, s.generations.Keys, s.plans.Keys)
    ensures StateLinks(s, reach, plans) <= StateLinks(s, s.generations.Keys, s.plans.Keys)
  {
  }

  lemma MarksAreLeast(env: Env, s: Store, roots: Roots, reach: set<Digest>, plans: set<PlanId>)
    requires reach <= s.generations.Keys && plans <= s.plans.Keys && LoadsHold(env, s, roots)
    ensures LeastClosed(s.objects.trees, MarkRootsOf(s, roots, reach, plans), KeptWith(s, roots, reach, plans).marks)
  {
    hide PinnedMarks, UnfoldTree, Readable, LoadMarks, ClosureOf, StateTrees, StateLinks, LeastClosed;
    var x := MarkRootsOf(s, roots, reach, plans);
    StateSubset(s, reach, plans);
    forall r | r in x.trees ensures Shallow(UnfoldTree(s.objects.trees, r, [], 0)) {
      assert ValidTree(s.objects, r);
    }
    ClosureIsLeast(s.objects.trees, x);
    ClosureOfJoin(s.objects.trees, Marks({}, StateLinks(s, reach, plans), StateTrees(s, reach, plans)), PinnedMarks(roots));
  }

  lemma KeptFollowsRecords(s: Store, roots: Roots, reach: set<Digest>, plans: set<PlanId>)
    requires reach <= s.generations.Keys && NeededPlans(s, roots, reach) <= plans <= s.plans.Keys
    requires LeastClosed(s.objects.trees, MarkRootsOf(s, roots, reach, plans), KeptWith(s, roots, reach, plans).marks)
    ensures FollowsRecords(s, KeptWith(s, roots, reach, plans)) && FollowsPins(roots, KeptWith(s, roots, reach, plans))
  {
    hide ClosureOf, PinnedMarks, ArtifactBlobs, PackRoots, TreeRoots, LinkRoots, GenerationBlobs, FileBlobs;
    var k := KeptWith(s, roots, reach, plans);
    assert MarksWithin(MarkRootsOf(s, roots, reach, plans), k.marks);
    forall d | d in k.generations ensures FollowsGeneration(k, s.generations[d]) {
      assert s.generations[d] in GenerationRecords(s, reach);
    }
    forall p | p in k.plans ensures FollowsPlan(k, s.plans[p]) {
      assert s.plans[p] in PlanRecords(s, plans);
    }
  }

  lemma KeptIsBelow(s: Store, req: Request, k: Kept, roots: Roots, reach: set<Digest>, plans: set<PlanId>)
    requires roots == RootsOf(s, Chosen(s, req)) && reach == Reachable(s.generations, roots)
    requires plans == Survivors(s, req, NeededPlans(s, roots, reach))
    requires LeastClosed(s.objects.trees, MarkRootsOf(s, roots, reach, plans), KeptWith(s, roots, reach, plans).marks)
    requires Closed(s, req, k)
    ensures KeptWithin(KeptWith(s, roots, reach, plans), k)
  {
    hide RootsOf, ClosureOf, PinnedMarks, PinnedPlans, PinnedBlobs, PinnedPacks, ArtifactBlobs, PackRoots, TreeRoots, LinkRoots,
      GenerationBlobs, GenerationRoots, Within, ClosedUnderChildren, LeastClosed;
    forall d | d in reach ensures d in k.generations && FollowsGeneration(k, s.generations[d]) {
      var root :| root in GenerationRoots(roots) && Within(s.generations, root, d);
    }
    forall p | p in plans ensures p in k.plans && FollowsPlan(k, s.plans[p]) {
      assert !req.sweep ==> p in Chosen(s, req);
    }
    var x := MarkRootsOf(s, roots, reach, plans);
    StateBelow(s, reach, plans, k);
    BlobsBelow(s, roots, reach, plans, k);
    assert MarksWithin(x, k.marks);
    LeastIsBelow(s.objects.trees, x, KeptWith(s, roots, reach, plans).marks, k.marks);
  }

  lemma LeastIsBelow(trees: Trees, roots: Marks, x: Marks, y: Marks)
    requires LeastClosed(trees, roots, x) && MarksWithin(roots, y) && ClosedUnderChildren(trees, y)
    ensures MarksWithin(x, y)
  {
  }

  lemma StateBelow(s: Store, reach: set<Digest>, plans: set<PlanId>, k: Kept)
    requires forall d :: d in reach && d in s.generations ==> FollowsGeneration(k, s.generations[d])
    requires forall p :: p in plans && p in s.plans ==> FollowsPlan(k, s.plans[p])
    ensures StateTrees(s, reach, plans) <= k.marks.trees && StateLinks(s, reach, plans) <= k.marks.symlinks
  {
    hide TreeRoots, LinkRoots, GenerationBlobs, ArtifactBlobs, PackRoots;
  }

  lemma BlobsBelow(s: Store, roots: Roots, reach: set<Digest>, plans: set<PlanId>, k: Kept)
    requires forall d :: d in reach && d in s.generations ==> FollowsGeneration(k, s.generations[d])
    requires forall p :: p in plans && p in s.plans ==> FollowsPlan(k, s.plans[p])
    requires FollowsPins(roots, k) && FollowsRecords(s, k)
    ensures PacksOf(s, roots, plans) <= k.packs && BlobsOf(s, roots, reach, plans) <= k.blobs
    ensures MemberBlobs(s, PacksOf(s, roots, plans)) <= k.blobs
  {
    hide TreeRoots, LinkRoots, GenerationBlobs, ArtifactBlobs, PackRoots, PinnedMarks, PinnedPlans, PinnedBlobs, PinnedPacks;
    assert PacksOf(s, roots, plans) <= k.packs;
  }

  lemma SurvivorsNeeded(env: Env, s: Store, req: Request)
    requires RootsHold(env, s, req)
    ensures var roots := RootsOf(s, Chosen(s, req)); var reach := Reachable(s.generations, roots);
      var plans := Survivors(s, req, NeededPlans(s, roots, reach));
      && NeededPlans(s, roots, reach) <= plans <= s.plans.Keys && LoadsHold(env, s, roots)
      && (!req.sweep ==> plans == Chosen(s, req)) && (req.sweep ==> plans == NeededPlans(s, roots, reach))
  {
    hide RootsOf, Reachable, NeededPlans, LoadsHold, PointsHold, LineagesHold, TargetsHold;
  }

  /** The mark phase computes exactly the least closed set. */
  lemma KeptIsLeast(env: Env, s: Store, req: Request)
    requires RootsHold(env, s, req)
    ensures Closed(s, req, KeptOf(s, req))
    ensures forall k :: Closed(s, req, k) ==> KeptWithin(KeptOf(s, req), k)
  {
    hide RootsOf, NeededPlans, LoadsHold, RootsHold, Survivors, KeptWith, Closed, LeastClosed;
    var roots := RootsOf(s, Chosen(s, req));
    var reach := Reachable(s.generations, roots);
    var plans := Survivors(s, req, NeededPlans(s, roots, reach));
    SurvivorsNeeded(env, s, req);
    MarksAreLeast(env, s, roots, reach, plans);
    KeptFollowsRecords(s, roots, reach, plans);
    KeptClosed(s, req, roots, reach, plans);
    forall k | Closed(s, req, k) ensures KeptWithin(KeptOf(s, req), k) {
      KeptIsBelow(s, req, k, roots, reach, plans);
    }
  }

  lemma KeptClosed(s: Store, req: Request, roots: Roots, reach: set<Digest>, plans: set<PlanId>)
    requires roots == RootsOf(s, Chosen(s, req)) && reach == Reachable(s.generations, roots)
    requires !req.sweep ==> plans == Chosen(s, req)
    requires FollowsRecords(s, KeptWith(s, roots, reach, plans)) && FollowsPins(roots, KeptWith(s, roots, reach, plans))
    ensures Closed(s, req, KeptWith(s, roots, reach, plans))
  {
    hide RootsOf, FollowsRecords, FollowsPins, GenerationRoots, Within, ClosureOf, BlobsOf, PacksOf, MemberBlobs, StateMarks;
  }
}
