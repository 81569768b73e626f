/** A prune that stops after any number of unlinks: the store it leaves behind passes every check of the
    next prune, and nothing retained is missing from it. */
module CrashSafety {
  import opened Base
  import opened Graphs
  import opened Canonical
  import opened Names
  import opened TreeGraph
  import opened TreeClosure
  import opened Loader
  import opened Store
  import opened RemovalOrder
  import opened Retention
  import opened RetentionClosure
  import opened Remnant

  // ----- States between two unlinks

  /** The order of the removal phases. */
  function Phase(n: Name): nat {
    match n
    case GenerationName(_) => 0
    case PlanName(_) => 1
    case BlobName(_) => 2
    case PackName(_) => 3
    case ManifestName(_) => 4
    case TreeName(_) => 5
    case SymlinkName(_) => 6
    case FileName(_) => 7
  }

  /** `r` may have been removed at some point: only garbage, earlier phases completely, and no generation
      before its children. */
  ghost predicate CrashState(s: Store, req: Request, r: set<Name>) {
    && r <= Garbage(s, req)
    && (forall m, n :: n in r && m in Garbage(s, req) && Phase(m) < Phase(n) ==> m in r)
    && (forall c :: c in s.generations && GenerationName(c) in Garbage(s, req) && s.generations[c].previous.Some? ==>
         (GenerationName(s.generations[c].previous.value) in r ==> GenerationName(c) in r))
  }

  /** The request to repeat: the plans that are still there. */
  ghost function Remaining(req: Request, t: Store): Request { Request(req.plans * t.plans.Keys, req.sweep) }

  /** What the phase order says about the store left behind. */
  ghost predicate InOrder(t: Store, s: Store, k: Kept) {
    && (t.generations.Keys <= k.generations || (t.plans == s.plans && t.blobs == s.blobs && t.objects == s.objects))
    && (t.plans.Keys <= k.plans || (t.blobs == s.blobs && t.objects == s.objects))
    && (forall d :: d in t.packs && d in s.manifests ==> d in t.manifests)
  }

  lemma NothingRemoved(s: Store, r: set<Name>, phase: nat)
    requires forall n :: n in r ==> Phase(n) <= phase
    ensures phase < 1 ==> Without(s, r).plans == s.plans
    ensures phase < 2 ==> Without(s, r).blobs == s.blobs && Without(s, r).objects == s.objects
  {
    var t := Without(s, r);
    if phase < 1 {
      assert t.plans == s.plans;
    }
    if phase < 2 {
      assert t.blobs == s.blobs;
      assert t.objects.files == s.objects.files && t.objects.symlinks == s.objects.symlinks && t.objects.trees == s.objects.trees;
    }
  }

  lemma PhasesInOrder(s: Store, req: Request, r: set<Name>)
    requires CrashState(s, req, r)
    ensures InOrder(Without(s, r), s, KeptOf(s, req))
    ensures Part(Without(s, r), s) && Preserved(Without(s, r), s, KeptOf(s, req))
  {
    hide KeptOf, NamesOf, MarkNames;
    var t, k := Without(s, r), KeptOf(s, req);
    WithoutIsPart(s, r, k);
    if !(t.generations.Keys <= k.generations) {
      var d :| d in t.generations && d !in k.generations;
      GarbageMember(s, req, GenerationName(d));
      assert forall n :: n in r ==> Phase(n) <= 0;
      NothingRemoved(s, r, 0);
    }
    if !(t.plans.Keys <= k.plans) {
      var d :| d in t.plans && d !in k.plans;
      GarbageMember(s, req, PlanName(d));
      assert forall n :: n in r ==> Phase(n) <= 1;
      NothingRemoved(s, r, 1);
    }
    forall d | d in t.packs && d in s.manifests ensures d in t.manifests {
      GarbageMember(s, req, PackName(d));
      GarbageMember(s, req, ManifestName(d));
      assert Phase(PackName(d)) < Phase(ManifestName(d));
    }
  }

  // ----- Roots and kept entries of the next run

  lemma HeadsReached(s: Store, chosen: set<PlanId>)
    ensures forall h :: h in s.catalog && h.generation in s.generations ==> h.generation in Reachable(s.generations, RootsOf(s, chosen))
  {
    var roots := RootsOf(s, chosen);
    forall h | h in s.catalog && h.generation in s.generations ensures h.generation in Reachable(s.generations, roots) {
      var root := (h.generation, s.generations[h.generation].authority.history as nat);
      assert root in roots.histories && root in GenerationRoots(roots);
      assert Ancestor(s.generations, root.0, 0) == Some(h.generation);
      assert Within(s.generations, root, h.generation);
    }
  }

  lemma NeededShrinks(t: Store, s: Store, few: Roots, many: Roots, r: set<Digest>, reach: set<Digest>)
    requires Part(t, s) && RootsWithin(few, many) && r <= reach && r <= t.generations.Keys
    ensures NeededPlans(t, few, r) <= NeededPlans(s, many, reach)
    ensures few == many && r == reach ==> NeededPlans(t, few, r) == NeededPlans(s, many, reach)
  {
    DerivedRootsWithin(few, many);
  }

  /** The roots, the reachable generations and the surviving plans of the next run. */
  lemma NextRun(env: Env, s: Store, req: Request, t: Store)
    requires RootsHold(env, s, req) && Part(t, s) && Preserved(t, s, KeptOf(s, req))
    ensures var roots, roots2 := RootsOf(s, Chosen(s, req)), RootsOf(t, Chosen(t, Remaining(req, t)));
      var reach, reach2 := Reachable(s.generations, roots), Reachable(t.generations, roots2);
      var needed, needed2 := NeededPlans(s, roots, reach), NeededPlans(t, roots2, reach2);
      && RootsWithin(roots2, roots) && reach2 <= reach && reach <= t.generations.Keys && needed2 <= needed
      && LineagesHold(t.generations, GenerationRoots(roots2))
      && Survivors(t, Remaining(req, t), needed2) <= Survivors(s, req, needed) <= t.plans.Keys
      && (!req.sweep ==> Chosen(s, req) <= t.plans.Keys)
      && (Chosen(s, req) <= t.plans.Keys ==>
           roots2 == roots && reach2 == reach && needed2 == needed
           && Survivors(t, Remaining(req, t), needed2) == Survivors(s, req, needed))
  {
    hide RootsOf, Reachable, NeededPlans, LoadsHold, KeptWith, GenerationRoots, TargetsHold, PointsHold, LineagesHold;
    var req2 := Remaining(req, t);
    var roots, roots2 := RootsOf(s, Chosen(s, req)), RootsOf(t, Chosen(t, req2));
    var reach, reach2 := Reachable(s.generations, roots), Reachable(t.generations, roots2);
    KeptGenerations(s, req);
    SurvivorsNeeded(env, s, req);
    HeadsReached(s, Chosen(s, req));
    assert Chosen(t, req2) <= Chosen(s, req);
    RootsShrink(t, s, Chosen(t, req2), Chosen(s, req));
    ReachShrinks(t.generations, s.generations, roots2, roots);
    NeededShrinks(t, s, roots2, roots, reach2, reach);
    if Chosen(s, req) <= t.plans.Keys {
      assert Chosen(t, req2) == Chosen(s, req);
    }
  }

  lemma KeptGenerations(s: Store, req: Request)
    ensures var roots := RootsOf(s, Chosen(s, req)); var reach := Reachable(s.generations, roots);
      KeptOf(s, req).generations == reach <= s.generations.Keys
      && KeptOf(s, req).plans == Survivors(s, req, NeededPlans(s, roots, reach)) <= s.plans.Keys
  {
  }

  /** The next run keeps nothing more; it keeps exactly the same as long as no plan that made claims is
      gone, which is always so after an explicit prune. */
  lemma KeptShrinks(env: Env, s: Store, req: Request, t: Store)
    requires RootsHold(env, s, req) && Part(t, s) && Preserved(t, s, KeptOf(s, req))
    ensures KeptWithin(KeptOf(t, Remaining(req, t)), KeptOf(s, req))
    ensures !req.sweep ==> Chosen(s, req) <= t.plans.Keys
    ensures Chosen(s, req) <= t.plans.Keys ==> KeptOf(t, Remaining(req, t)) == KeptOf(s, req)
  {
    hide RootsOf, Reachable, NeededPlans, LoadsHold, KeptWith, GenerationRoots, LineagesHold, RootsHold, Survivors, Inside, Closed;
    var req2, k := Remaining(req, t), KeptOf(s, req);
    var roots, roots2 := RootsOf(s, Chosen(s, req)), RootsOf(t, Chosen(t, req2));
    var reach, reach2 := Reachable(s.generations, roots), Reachable(t.generations, roots2);
    var plans, plans2 := Survivors(s, req, NeededPlans(s, roots, reach)), Survivors(t, req2, NeededPlans(t, roots2, reach2));
    NextRun(env, s, req, t);
    KeptGenerations(s, req);
    KeptIsLeast(env, s, req);
    KeptIsClosed(s, req, k);
    KeptContainsRoots(s, roots, reach, plans);
    KeptMonotone(s, roots2, roots, reach2, reach, plans2, plans);
    InsideLess(s, k, roots2, roots, reach2, reach, plans2, plans);
    KeptAgrees(t, s, k, roots2, reach2, plans2);
  }

  lemma KeptIsClosed(s: Store, req: Request, k: Kept)
    requires Closed(s, req, k)
    ensures ClosedUnderChildren(s.objects.trees, k.marks) && FollowsRecords(s, k) && FollowsPins(RootsOf(s, Chosen(s, req)), k)
  {
  }

  lemma InsideLess(s: Store, k: Kept, few: Roots, many: Roots, r: set<Digest>, reach: set<Digest>, p: set<PlanId>, plans: set<PlanId>)
    requires Inside(s, k, many, reach, plans) && RootsWithin(few, many) && r <= reach && p <= plans
    ensures Inside(s, k, few, r, p)
  {
    hide PinnedMarks, StateTrees, StateLinks, ClosureOf, PinnedPacks, PackRoots, BlobsOf, MemberBlobs;
    KeptMonotone(s, few, many, r, reach, p, plans);
  }
}
