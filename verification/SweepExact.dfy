/** When one sweep is enough: exactly when the plans that go claim nothing beyond what the remaining claims
    retain.  Under the same condition, and only then, an interrupted sweep that is repeated agrees with the
    uninterrupted one. */
module SweepExact {
  import opened Base
  import opened Canonical
  import opened Names
  import opened TreeGraph
  import opened TreeClosure
  import opened Loader
  import opened Store
  import opened Retention
  import opened RetentionClosure
  import opened Remnant
  import opened CrashSafety
  import opened Readmission
  import opened Rerun
  import opened Sweeps

  /** What the heads and some of the plans retain. */
  ghost function RetainedBy(s: Store, plans: set<PlanId>): Kept {
    var roots := RootsOf(s, plans);
    var reach := Reachable(s.generations, roots);
    KeptWith(s, roots, reach, NeededPlans(s, roots, reach))
  }

  /** What a sweep keeps is what all plans together retain. */
  lemma SweepKeepsRetained(env: Env, s: Store)
    requires SweepRetainable(env, s)
    ensures KeptOf(s, SWEEP) == RetainedBy(s, s.plans.Keys)
  {
    hide RootsOf, Reachable, NeededPlans, KeptWith, LoadsHold, PointsHold, LineagesHold, TargetsHold, WithinBudget, StoreHolds;
    SurvivorsNeeded(env, s, SWEEP);
    assert Chosen(s, SWEEP) == s.plans.Keys;
  }

  /** The plans that fewer claims need are among those that all claims need. */
  lemma FewerRetained(env: Env, s: Store, plans: set<PlanId>)
    requires SweepRetainable(env, s) && plans <= s.plans.Keys
    ensures var roots, all := RootsOf(s, plans), RootsOf(s, s.plans.Keys);
      var reach := Reachable(s.generations, roots);
      && RootsWithin(roots, all) && reach <= Reachable(s.generations, all) <= s.generations.Keys
      && NeededPlans(s, roots, reach) <= NeededPlans(s, all, Reachable(s.generations, all)) <= s.plans.Keys
  {
    hide RootsOf, Reachable, NeededPlans, KeptWith, LoadsHold, PointsHold, LineagesHold, TargetsHold, WithinBudget, StoreHolds;
    var roots, all := RootsOf(s, plans), RootsOf(s, s.plans.Keys);
    assert Chosen(s, SWEEP) == s.plans.Keys;
    PartOfItself(s);
    HeadsHere(env, s);
    RootsShrink(s, s, plans, s.plans.Keys);
    ReachHere(s.generations, all);
    ReachShrinks(s.generations, s.generations, roots, all);
    NeededShrinks(s, s, roots, all, Reachable(s.generations, roots), Reachable(s.generations, all));
  }

  lemma HeadsHere(env: Env, s: Store)
    requires SweepRetainable(env, s)
    ensures forall h :: h in s.catalog ==> h.generation in s.generations
  {
    hide KeptOf, RootsHold, WithinBudget, KeptStored, ManifestsHold, RecordsSound, ArtifactsHold, GenerationsRebuild, PacksShaped, CanonicalShaped;
  }

  lemma ReachHere(gens: Generations, roots: Roots)
    ensures Reachable(gens, roots) <= gens.Keys
  {
  }

  /** Fewer claims retain less. */
  lemma RetainedMonotone(env: Env, s: Store, few: set<PlanId>, many: set<PlanId>)
    requires SweepRetainable(env, s) && few <= many <= s.plans.Keys
    ensures KeptWithin(RetainedBy(s, few), RetainedBy(s, many))
  {
    hide RootsOf, Reachable, NeededPlans, KeptWith, Retainable, KeptWithin, RootsWithin;
    var a, b := RootsOf(s, few), RootsOf(s, many);
    PartOfItself(s);
    HeadsHere(env, s);
    RootsShrink(s, s, few, many);
    ReachHere(s.generations, b);
    ReachShrinks(s.generations, s.generations, a, b);
    var r, reach := Reachable(s.generations, a), Reachable(s.generations, b);
    NeededShrinks(s, s, a, b, r, reach);
    KeptMonotone(s, a, b, r, reach, NeededPlans(s, a, r), NeededPlans(s, b, reach));
  }

  /** What a sweep keeps of a store from which only garbage is missing depends on the plans still there. */
  lemma RemnantRetained(env: Env, s: Store, t: Store)
    requires SweepRetainable(env, s) && Part(t, s) && Preserved(t, s, KeptOf(s, SWEEP))
    ensures KeptOf(t, SWEEP) == RetainedBy(s, t.plans.Keys)
  {
    hide RootsOf, Reachable, NeededPlans, KeptWith, LoadsHold, PointsHold, LineagesHold, TargetsHold, RootsWithin, Inside, ManifestsHold,
      StoreHolds, WithinBudget, GenerationRoots, Preserved, Closed, KeptStored;
    var plans, k := t.plans.Keys, KeptOf(s, SWEEP);
    assert Remaining(SWEEP, t) == SWEEP && Chosen(t, SWEEP) == plans && Chosen(s, SWEEP) == s.plans.Keys;
    var roots, all := RootsOf(s, plans), RootsOf(s, s.plans.Keys);
    NextRun(env, s, SWEEP, t);
    KeptGenerations(s, SWEEP);
    HeadsPreserved(s, SWEEP, t);
    assert plans <= s.plans.Keys;
    RootsShrink(t, s, plans, plans);
    FewerRetained(env, s, plans);
    var reach := Reachable(s.generations, roots);
    ReachShrinks(t.generations, s.generations, roots, all);
    NeededHere(t, s, roots, reach);
    var needed := NeededPlans(s, roots, reach);
    SurvivorsNeeded(env, s, SWEEP);
    NeededSurvive(t, needed);
    KeptIsLeast(env, s, SWEEP);
    KeptIsClosed(s, SWEEP, k);
    KeptContainsRoots(s, all, Reachable(s.generations, all), NeededPlans(s, all, Reachable(s.generations, all)));
    InsideLess(s, k, roots, all, reach, Reachable(s.generations, all), needed, NeededPlans(s, all, Reachable(s.generations, all)));
    KeptAgrees(t, s, k, roots, reach, needed);
  }

  lemma NeededHere(t: Store, s: Store, roots: Roots, reach: set<Digest>)
    requires Part(t, s) && reach <= t.generations.Keys
    ensures NeededPlans(t, roots, reach) == NeededPlans(s, roots, reach)
  {
    hide ObjectsPart;
  }

  lemma NeededSurvive(t: Store, needed: set<PlanId>)
    requires needed <= t.plans.Keys
    ensures Survivors(t, SWEEP, needed) == needed
  {
  }

  // ----- One sweep is enough

  /** Everything that a sweep keeps is on disk, and so is either kept by the next sweep or garbage for it. */
  lemma NoGarbageKeepsAll(s: Store, k: Kept, k2: Kept)
    requires KeptStored(s, k) && k.generations <= s.generations.Keys && k.plans <= s.plans.Keys
    requires forall n :: OnDisk(s, n) ==> Keeps(k2, n)
    ensures KeptWithin(k, k2)
  {
    forall d | d in k.generations ensures d in k2.generations { assert OnDisk(s, GenerationName(d)); }
    forall d | d in k.plans ensures d in k2.plans { assert OnDisk(s, PlanName(d)); }
    forall d | d in k.blobs ensures d in k2.blobs { assert OnDisk(s, BlobName(d)); }
    forall d | d in k.packs ensures d in k2.packs { assert OnDisk(s, PackName(d)) || OnDisk(s, ManifestName(d)); }
    forall d | d in k.marks.files ensures d in k2.marks.files { assert OnDisk(s, FileName(d)); }
    forall d | d in k.marks.symlinks ensures d in k2.marks.symlinks { assert OnDisk(s, SymlinkName(d)); }
    forall d | d in k.marks.trees ensures d in k2.marks.trees { assert OnDisk(s, TreeName(d)); }
  }

  lemma WithinBoth(a: Kept, b: Kept)
    requires KeptWithin(a, b) && KeptWithin(b, a)
    ensures a == b
  {
    assert a.marks == b.marks;
  }

  lemma SettledKeepsAll(env: Env, s: Store)
    requires SweepRetainable(env, s) && Garbage(Swept(s), SWEEP) == {}
    ensures KeptWithin(KeptOf(s, SWEEP), KeptOf(Swept(s), SWEEP))
  {
    hide KeptOf, Garbage, Without, OnDisk, Keeps, RootsHold, StoreHolds, WithinBudget, ManifestsHold, KeptWithin, Preserved;
    var t, k := Swept(s), KeptOf(s, SWEEP);
    forall n | OnDisk(t, n) ensures Keeps(KeptOf(t, SWEEP), n) {
      GarbageMember(t, SWEEP, n);
    }
    NothingOfKeptLost(s, k);
    PlansLeft(s, SWEEP);
    KeptStillStored(s, t, k, k) by { WithinItself(k); }
    NoGarbageKeepsAll(t, k, KeptOf(t, SWEEP));
  }

  lemma NothingOfKeptLost(s: Store, k: Kept)
    requires k == KeptOf(s, SWEEP)
    ensures Part(Swept(s), s) && Preserved(Swept(s), s, k)
  {
    hide KeptOf, NamesOf, KeptNames;
    WithoutIsPart(s, Garbage(s, SWEEP), k);
  }

  /** After one sweep nothing is left to sweep if and only if the surviving plans and the heads retain all
      that was kept. */
  lemma OneSweepExactly(env: Env, s: Store)
    requires SweepRetainable(env, s)
    ensures Settled(Swept(s)) <==> RetainedBy(s, KeptOf(s, SWEEP).plans) == KeptOf(s, SWEEP)
  {
    hide KeptOf, RetainedBy, Garbage, Without, Retainable, Preserved, Part, KeptWithin;
    var t, k := Swept(s), KeptOf(s, SWEEP);
    PlansLeft(s, SWEEP);
    NothingOfKeptLost(s, k);
    RemnantRetained(env, s, t);
    RetainedMonotone(env, s, k.plans, s.plans.Keys);
    SweepKeepsRetained(env, s);
    if RetainedBy(s, k.plans) == k {
      NoneLeft(s, SWEEP, Garbage(s, SWEEP));
    }
    if Settled(t) {
      SettledKeepsAll(env, s);
      WithinBoth(RetainedBy(s, k.plans), k);
    }
  }

  ghost predicate RepeatsAgree(s: Store) {
    forall r :: CrashState(s, SWEEP, r) ==> Pruned(Without(s, r), SWEEP) == Swept(s)
  }

  /** The state in which no removal has been lost is one of those a sweep may stop in. */
  lemma RepeatAgrees(env: Env, s: Store, r: set<Name>)
    requires SweepRetainable(env, s) && CrashState(s, SWEEP, r) && RetainedBy(s, KeptOf(s, SWEEP).plans) == KeptOf(s, SWEEP)
    ensures Pruned(Without(s, r), SWEEP) == Swept(s)
  {
    hide KeptOf, RetainedBy, Garbage, Without, Retainable, KeptWithin, InOrder;
    var t, k := Without(s, r), KeptOf(s, SWEEP);
    PhasesInOrder(s, SWEEP, r);
    RemnantRetained(env, s, t);
    KeptGenerations(s, SWEEP);
    assert k.plans <= t.plans.Keys <= s.plans.Keys;
    RetainedMonotone(env, s, k.plans, t.plans.Keys);
    RetainedMonotone(env, s, t.plans.Keys, s.plans.Keys);
    SweepKeepsRetained(env, s);
    WithinBoth(RetainedBy(s, t.plans.Keys), k);
    GarbageLeft(s, SWEEP, r, SWEEP);
    WithoutTwice(s, r, Garbage(t, SWEEP));
  }

  /** A sweep that stops anywhere and is repeated ends where the uninterrupted one does, if and only if the
      surviving plans and the heads retain all that was kept. */
  lemma RepeatsAgreeExactly(env: Env, s: Store)
    requires SweepRetainable(env, s)
    ensures RepeatsAgree(s) <==> RetainedBy(s, KeptOf(s, SWEEP).plans) == KeptOf(s, SWEEP)
  {
    hide KeptOf, RetainedBy, Garbage, Without, Retainable, CrashState;
    if RetainedBy(s, KeptOf(s, SWEEP).plans) == KeptOf(s, SWEEP) {
      forall r | CrashState(s, SWEEP, r) ensures Pruned(Without(s, r), SWEEP) == Swept(s) {
        RepeatAgrees(env, s, r);
      }
    }
    if RepeatsAgree(s) {
      AllGarbageRemoved(s, SWEEP);
      assert Pruned(Swept(s), SWEEP) == Swept(s);
      FixedMeansSettled(Swept(s));
      OneSweepExactly(env, s);
    }
  }

  lemma FixedMeansSettled(t: Store)
    requires Swept(t) == t
    ensures Settled(t)
  {
    hide KeptOf, Garbage, Without, OnDisk, Keeps;
    forall n ensures n !in Garbage(t, SWEEP) {
      GarbageMember(t, SWEEP, n);
      OnDiskWithout(t, Garbage(t, SWEEP), n);
    }
    PlansLeft(t, SWEEP);
  }

  // ----- The condition, plan by plan

  ghost predicate PinKept(k: Kept, pin: Pin) {
    match pin
    case PinPlan(p) => p in k.plans
    case PinGeneration(d) => d in k.generations
    case PinBlob(d) => d in k.blobs
    case PinPack(d) => d in k.packs
    case PinFile(d) => d in k.marks.files
    case PinSymlink(d) => d in k.marks.symlinks
    case PinTree(d) => d in k.marks.trees
  }

  /** All that a plan claims is retained in any case. */
  ghost predicate ClaimsKept(k: Kept, p: Plan) {
    && (forall point :: point in PointsOf(p.restorePoint, p.authority) ==> point.generation in k.generations)
    && (forall pin :: pin in p.authority.pins ==> PinKept(k, pin))
  }

  /** No plan that goes claims more than the remaining claims retain. */
  ghost predicate NothingGoesWithPlans(s: Store) {
    var stays := KeptOf(s, SWEEP).plans;
    forall p :: p in s.plans && p !in stays ==> ClaimsKept(RetainedBy(s, stays), s.plans[p])
  }

  lemma RootKept(s: Store, roots: Roots, k: Kept, d: Digest)
    requires FollowsHistory(s, roots, k) && LineagesHold(s.generations, GenerationRoots(roots)) && (d, 1) in GenerationRoots(roots)
    ensures d in k.generations
  {
    hide GenerationRoots;
    assert LineageHolds(s.generations, (d, 1)) && Ancestor(s.generations, d, 0) == Some(d);
    assert Within(s.generations, (d, 1), d);
  }

  lemma AllClaimsKept(env: Env, s: Store, p: PlanId)
    requires SweepRetainable(env, s) && p in s.plans
    ensures ClaimsKept(KeptOf(s, SWEEP), s.plans[p])
  {
    hide RootsOf, KeptOf, FollowsRecords, FollowsHistory, LoadsHold, NeededPlans, Reachable, TargetsHold, PointsHold, WithinBudget, StoreHolds,
      KeptStored, ManifestsHold, LineagesHold, GenerationRoots, PointsOf, KeptWithin, PinnedPlans, PinnedBlobs, PinnedPacks, PinnedMarks;
    var k, roots := KeptOf(s, SWEEP), RootsOf(s, s.plans.Keys);
    assert Chosen(s, SWEEP) == s.plans.Keys;
    KeptIsLeast(env, s, SWEEP);
    ClaimsAreRoots(s, s.plans.Keys, p);
    forall point | point in PointsOf(s.plans[p].restorePoint, s.plans[p].authority) ensures point.generation in k.generations {
      PointIsRoot(roots, point);
      RootKept(s, roots, k, point.generation);
    }
    forall pin | pin in s.plans[p].authority.pins ensures PinKept(k, pin) {
      PinIsKept(s, roots, k, pin);
    }
  }

  lemma PointIsRoot(roots: Roots, point: RestorePoint)
    requires point in roots.points
    ensures (point.generation, 1) in GenerationRoots(roots)
  {
  }

  lemma PinIsKept(s: Store, roots: Roots, k: Kept, pin: Pin)
    requires FollowsHistory(s, roots, k) && FollowsPins(roots, k) && LineagesHold(s.generations, GenerationRoots(roots)) && pin in roots.pins
    ensures PinKept(k, pin)
  {
    hide FollowsHistory, LineagesHold;
    match pin {
      case PinPlan(p) => assert p in PinnedPlans(roots);
      case PinGeneration(d) =>
        assert (d, 1) in GenerationRoots(roots);
        RootKept(s, roots, k, d);
      case PinBlob(d) => assert d in PinnedBlobs(roots);
      case PinPack(d) => assert d in PinnedPacks(roots);
      case PinFile(d) => assert d in PinnedMarks(roots).files;
      case PinSymlink(d) => assert d in PinnedMarks(roots).symlinks;
      case PinTree(d) => assert d in PinnedMarks(roots).trees;
    }
  }

  /** Where a root comes from. */
  lemma RootSource(s: Store, plans: set<PlanId>, all: set<PlanId>)
    requires plans <= all <= s.plans.Keys
    ensures RootsOf(s, all).histories == RootsOf(s, plans).histories
    ensures forall point :: point in RootsOf(s, all).points ==>
      point in RootsOf(s, plans).points || exists p :: p in all && p !in plans && point in PointsOf(s.plans[p].restorePoint, s.plans[p].authority)
    ensures forall pin :: pin in RootsOf(s, all).pins ==>
      pin in RootsOf(s, plans).pins || exists p :: p in all && p !in plans && pin in s.plans[p].authority.pins
  {
    hide PointsOf;
    var a, b := RootsOf(s, plans), RootsOf(s, all);
    forall point | point in b.points && point !in a.points
      ensures exists p :: p in all && p !in plans && point in PointsOf(s.plans[p].restorePoint, s.plans[p].authority)
    {
      var r :| r in PlanRecords(s, all) && point in PointsOf(r.restorePoint, r.authority);
      var p :| p in all && s.plans[p] == r;
      assert p in plans ==> r in PlanRecords(s, plans);
    }
    forall pin | pin in b.pins && pin !in a.pins ensures exists p :: p in all && p !in plans && pin in s.plans[p].authority.pins {
      var r :| r in PlanRecords(s, all) && pin in r.authority.pins;
      var p :| p in all && s.plans[p] == r;
      assert p in plans ==> r in PlanRecords(s, plans);
    }
  }

  /** What some plans and the heads retain follows the rules for their own claims. */
  lemma RetainedFollows(env: Env, s: Store, plans: set<PlanId>)
    requires SweepRetainable(env, s) && plans <= s.plans.Keys
    ensures FollowsRecords(s, RetainedBy(s, plans)) && FollowsPins(RootsOf(s, plans), RetainedBy(s, plans))
    ensures FollowsHistory(s, RootsOf(s, plans), RetainedBy(s, plans))
  {
    hide RootsOf, Reachable, NeededPlans, KeptWith, FollowsRecords, FollowsPins, LoadsHold, LeastClosed, GenerationRoots, Within,
      StoreHolds, WithinBudget, KeptOf, KeptStored, ManifestsHold, PointsHold, LineagesHold, TargetsHold;
    var roots, all := RootsOf(s, plans), RootsOf(s, s.plans.Keys);
    assert Chosen(s, SWEEP) == s.plans.Keys;
    FewerRetained(env, s, plans);
    var reach := Reachable(s.generations, roots);
    FewerLoads(env, s, roots, all);
    MarksAreLeast(env, s, roots, reach, NeededPlans(s, roots, reach));
    KeptFollowsRecords(s, roots, reach, NeededPlans(s, roots, reach));
    HistoryFollowed(s, roots, NeededPlans(s, roots, reach));
  }

  lemma HistoryFollowed(s: Store, roots: Roots, plans: set<PlanId>)
    ensures FollowsHistory(s, roots, KeptWith(s, roots, Reachable(s.generations, roots), plans))
  {
    hide GenerationRoots, Within, BlobsOf, PacksOf, MemberBlobs, StateMarks, ClosureOf;
  }

  lemma FewerLoads(env: Env, s: Store, few: Roots, many: Roots)
    requires RootsWithin(few, many) && LoadsHold(env, s, many)
    ensures LoadsHold(env, s, few)
  {
    hide Loads, PinnedMarks, StateTrees, StateLinks, PinnedPlans, PinnedBlobs, PinnedPacks, GenerationRoots;
    DerivedRootsWithin(few, many);
    LoadsFewer(env, s, PinnedMarks(few).trees, PinnedMarks(few).symlinks, PinnedMarks(many).trees, PinnedMarks(many).symlinks);
  }

  lemma NothingGoesFollows(env: Env, s: Store)
    requires SweepRetainable(env, s) && NothingGoesWithPlans(s)
    ensures Closed(s, SWEEP, RetainedBy(s, KeptOf(s, SWEEP).plans))
  {
    hide RootsOf, KeptOf, RetainedBy, Retainable, FollowsRecords, GenerationRoots, PointsOf, PinnedPlans, PinnedBlobs, PinnedPacks, PinnedMarks;
    var stays := KeptOf(s, SWEEP).plans;
    var k := RetainedBy(s, stays);
    assert Chosen(s, SWEEP) == s.plans.Keys;
    KeptGenerations(s, SWEEP);
    RetainedFollows(env, s, stays);
    RootSource(s, stays, s.plans.Keys);
    var some, all := RootsOf(s, stays), RootsOf(s, s.plans.Keys);
    PinsFollow(s, some, all, k);
    HistoriesFollow(s, some, all, k);
  }

  /** Pins that are kept one by one are followed. */
  lemma PinsFollow(s: Store, some: Roots, all: Roots, k: Kept)
    requires FollowsPins(some, k) && forall pin :: pin in all.pins ==> pin in some.pins || PinKept(k, pin)
    ensures FollowsPins(all, k)
  {
    forall pin | pin in all.pins && !pin.PinGeneration? ensures PinKept(k, pin) {
      if pin in some.pins {
        match pin {
          case PinPlan(p) => assert p in PinnedPlans(some);
          case PinBlob(d) => assert d in PinnedBlobs(some);
          case PinPack(d) => assert d in PinnedPacks(some);
          case PinFile(d) => assert d in PinnedMarks(some).files;
          case PinSymlink(d) => assert d in PinnedMarks(some).symlinks;
          case PinTree(d) => assert d in PinnedMarks(some).trees;
        }
      }
    }
  }

  lemma OneGenerationRoot(gens: Generations, d: Digest, e: Digest)
    requires Within(gens, (d, 1), e)
    ensures e == d
  {
    assert Ancestor(gens, d, 0) == Some(d);
  }

  lemma HistoriesFollow(s: Store, some: Roots, all: Roots, k: Kept)
    requires FollowsHistory(s, some, k) && all.histories == some.histories
    requires forall point :: point in all.points ==> point in some.points || point.generation in k.generations
    requires forall pin :: pin in all.pins ==> pin in some.pins || PinKept(k, pin)
    ensures FollowsHistory(s, all, k)
  {
    hide Within;
    forall root, d | root in GenerationRoots(all) && d in s.generations && Within(s.generations, root, d) ensures d in k.generations {
      if root !in GenerationRoots(some) {
        assert root.1 == 1;
        OneGenerationRoot(s.generations, root.0, d);
      }
    }
  }

  /** The condition of the two theorems above, as something that can be looked up before a sweep: no plan
      about to go claims a restore point or a pin beyond what the remaining claims retain. */
  lemma ExactlyWhenNothingGoes(env: Env, s: Store)
    requires SweepRetainable(env, s)
    ensures RetainedBy(s, KeptOf(s, SWEEP).plans) == KeptOf(s, SWEEP) <==> NothingGoesWithPlans(s)
  {
    hide RootsOf, KeptOf, RetainedBy, Retainable, Closed, KeptWithin, ClaimsKept;
    var k := KeptOf(s, SWEEP);
    if RetainedBy(s, k.plans) == k {
      forall p | p in s.plans && p !in k.plans ensures ClaimsKept(k, s.plans[p]) {
        AllClaimsKept(env, s, p);
      }
    }
    if NothingGoesWithPlans(s) {
      NothingGoesFollows(env, s);
      RetainableRoots(env, s);
      KeptIsLeast(env, s, SWEEP);
      KeptGenerations(s, SWEEP);
      RetainedMonotone(env, s, k.plans, s.plans.Keys);
      SweepKeepsRetained(env, s);
      WithinBoth(RetainedBy(s, k.plans), k);
    }
  }

  lemma RetainableRoots(env: Env, s: Store)
    requires SweepRetainable(env, s)
    ensures RootsHold(env, s, SWEEP)
  {
    hide KeptOf, RootsHold, StoreHolds, WithinBudget, KeptStored, ManifestsHold;
  }

  /** One sweep is a fixed point, and repeating an interrupted sweep agrees with the uninterrupted one, exactly
      when no plan about to go claims anything beyond what the remaining claims retain. */
  lemma SweepIsFixedPointExactly(env: Env, s: Store)
    requires Admissible(env, s, SWEEP)
    ensures Settled(Swept(s)) <==> NothingGoesWithPlans(s)
    ensures RepeatsAgree(s) <==> NothingGoesWithPlans(s)
  {
    hide Admissible, Retainable, Removable, KeptOf, RetainedBy, Settled, Swept, RepeatsAgree, NothingGoesWithPlans;
    AdmissibleMeans(env, s, SWEEP);
    OneSweepExactly(env, s);
    RepeatsAgreeExactly(env, s);
    ExactlyWhenNothingGoes(env, s);
  }
}
