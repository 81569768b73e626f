/** Repeated sweeps: they keep less and less, come to an end, and agree with a single one exactly when no
    plan that goes takes with it something that only this plan retained. */
module Sweeps {
  import opened Base
  import opened Graphs
  import opened Canonical
  import opened Names
  import opened TreeGraph
  import opened TreeClosure
  import opened Loader
  import opened Store
  import opened RemovalOrder
  import opened Retention
  import opened RetentionClosure
  import opened Remnant
  import opened CrashSafety
  import opened Readmission
  import opened Rerun

  const SWEEP := Request({}, true)

  ghost function Swept(s: Store): Store { Pruned(s, SWEEP) }

  /** A sweep as it is run: a refused one changes nothing. */
  ghost function SweepRun(env: Env, s: Store): Store { if Admissible(env, s, SWEEP) then Swept(s) else s }

  ghost function Rounds(env: Env, s: Store, n: nat): Store
    decreases n
  {
    if n == 0 then s else Rounds(env, SweepRun(env, s), n - 1)
  }

  ghost predicate SweepRetainable(env: Env, s: Store) { Retainable(env, s, SWEEP) }

  /** What a sweep could remove next. */
  ghost predicate SweepRemovable(env: Env, s: Store) { Removable(env, s, KeptOf(s, SWEEP)) }

  /** A sweep leaves everything that the next one is to keep in order, and that is nothing new. */
  lemma SweepStep(env: Env, s: Store)
    requires Coherent(env) && SweepRetainable(env, s)
    ensures SweepRetainable(env, Swept(s)) && KeptWithin(KeptOf(Swept(s), SWEEP), KeptOf(s, SWEEP))
    ensures Swept(s).plans.Keys == KeptOf(s, SWEEP).plans <= s.plans.Keys
    ensures Part(Swept(s), s) && Preserved(Swept(s), s, KeptOf(s, SWEEP))
  {
    hide Retainable, KeptOf, KeptWithin, Without, Part, Preserved, CrashState;
    AllGarbageRemoved(s, SWEEP);
    StillRetainable(env, s, SWEEP, Garbage(s, SWEEP));
    assert Remaining(SWEEP, Swept(s)) == SWEEP;
    PlansLeft(s, SWEEP);
  }

  /** A swept store can be swept again exactly when what the first sweep kept and the second does not can go. */
  lemma SweepAgain(env: Env, s: Store)
    requires Coherent(env) && Admissible(env, s, SWEEP)
    ensures var t := Swept(s); var k := KeptOf(t, SWEEP);
      && (Admissible(env, t, SWEEP) <==>
           RemovedBlobsShaped(env, t, k.blobs) && Acyclic(PredecessorEdge(t.generations, t.generations.Keys - k.generations)))
      && KeptWithin(k, KeptOf(s, SWEEP))
  {
    hide Admissible, Retainable, KeptOf, KeptWithin, Swept, RemovedBlobsShaped, Acyclic, Part, Preserved;
    AdmissibleMeans(env, s, SWEEP);
    AdmissibleMeans(env, Swept(s), SWEEP);
    SweepStep(env, s);
  }

  lemma WithinTransitive(a: Kept, b: Kept, c: Kept)
    requires KeptWithin(a, b) && KeptWithin(b, c)
    ensures KeptWithin(a, c)
  {
  }

  /** Later sweeps keep less and less.  Each of them is admitted exactly when what it is to remove can go. */
  lemma {:induction false} SweepsMonotone(env: Env, s: Store, n: nat)
    requires Coherent(env) && SweepRetainable(env, s)
    ensures var t := Rounds(env, s, n);
      && SweepRetainable(env, t) && Part(t, s) && KeptWithin(KeptOf(t, SWEEP), KeptOf(s, SWEEP))
      && (Admissible(env, t, SWEEP) <==> SweepRemovable(env, t))
    decreases n
  {
    hide Admissible, Retainable, Removable, KeptOf, KeptWithin, Swept, Part, Preserved;
    AdmissibleMeans(env, Rounds(env, s, n), SWEEP);
    if n == 0 {
      WithinItself(KeptOf(s, SWEEP));
      PartOfItself(s);
    } else {
      var t := SweepRun(env, s);
      SweepStep(env, s);
      PartOfItself(s);
      SweepsMonotone(env, t, n - 1);
      if t != s {
        WithinTransitive(KeptOf(Rounds(env, s, n), SWEEP), KeptOf(t, SWEEP), KeptOf(s, SWEEP));
        PartOfPart(Rounds(env, s, n), t, s);
      }
    }
  }

  lemma PartOfItself(s: Store)
    ensures Part(s, s)
  {
  }

  lemma PartOfPart(a: Store, b: Store, c: Store)
    requires Part(a, b) && Part(b, c)
    ensures Part(a, c)
  {
  }

  lemma WithinItself(k: Kept)
    ensures KeptWithin(k, k)
  {
  }

  /** Nothing is left to sweep: every plan is retained and there is no garbage. */
  ghost predicate Settled(s: Store) { Garbage(s, SWEEP) == {} && KeptOf(s, SWEEP).plans == s.plans.Keys }

  lemma SettledStays(s: Store)
    requires Settled(s)
    ensures Swept(s) == s
  {
    hide KeptOf, Without;
    WithoutNothing(s);
  }

  lemma SettledRemovable(env: Env, s: Store)
    requires Settled(s)
    ensures SweepRemovable(env, s)
  {
    hide KeptOf;
    var k := KeptOf(s, SWEEP);
    forall d | d in s.blobs ensures d in k.blobs {
      GarbageMember(s, SWEEP, BlobName(d));
    }
    forall d | d in s.generations ensures d in k.generations {
      GarbageMember(s, SWEEP, GenerationName(d));
    }
    RankedIsAcyclic(PredecessorEdge(s.generations, s.generations.Keys - k.generations), _ => 0);
  }

  /** A sweep that removes no plan leaves nothing for the next one. */
  lemma NoPlanRemovedSettles(env: Env, s: Store)
    requires Coherent(env) && SweepRetainable(env, s) && KeptOf(s, SWEEP).plans == s.plans.Keys
    ensures Settled(Swept(s))
  {
    hide KeptOf, Without, RootsHold, StoreHolds, WithinBudget, KeptStored, ManifestsHold, Part, Preserved, Garbage, KeptWithin;
    SweepStep(env, s);
    assert Remaining(SWEEP, Swept(s)) == SWEEP && Chosen(s, SWEEP) == s.plans.Keys;
    KeptShrinks(env, s, SWEEP, Swept(s));
    NoneLeft(s, SWEEP, Garbage(s, SWEEP));
  }

  /** Sweeping comes to an end within one round more than there are plans: either everything is settled, or
      the next sweep is refused, and then because something it is to remove cannot go. */
  lemma {:induction false} SweepsConverge(env: Env, s: Store) returns (n: nat)
    requires Coherent(env) && SweepRetainable(env, s)
    ensures n <= |s.plans| + 1 && Rounds(env, s, n + 1) == Rounds(env, s, n)
    ensures Settled(Rounds(env, s, n)) <==> SweepRemovable(env, Rounds(env, s, n))
    decreases |s.plans|
  {
    hide Admissible, Retainable, Removable, KeptOf, Swept, Settled, KeptWithin, Part, Preserved;
    AdmissibleMeans(env, s, SWEEP);
    if !Admissible(env, s, SWEEP) {
      n := 0;
      assert Rounds(env, s, 1) == Rounds(env, s, 0) == s;
      if Settled(s) {
        SettledRemovable(env, s);
      }
    } else {
      var t := Swept(s);
      SweepStep(env, s);
      if KeptOf(s, SWEEP).plans == s.plans.Keys {
        NoPlanRemovedSettles(env, s);
        n := 1;
        SettledStays(t);
        SettledRemovable(env, t);
        assert Rounds(env, s, 1) == Rounds(env, t, 0) == t && Rounds(env, s, 2) == Rounds(env, t, 1) == Rounds(env, SweepRun(env, t), 0);
      } else {
        FewerPlans(t.plans.Keys, s.plans.Keys);
        var m := SweepsConverge(env, t);
        n := m + 1;
        assert Rounds(env, s, n) == Rounds(env, t, m) && Rounds(env, s, n + 1) == Rounds(env, t, m + 1);
      }
    }
  }

  // ----- Stores on which no sweep is refused

  /** Every blob is in shape, and no predecessor cycle exists, as content addresses ensure. */
  ghost predicate SweepSafe(env: Env, s: Store) {
    && Acyclic(PredecessorEdge(s.generations, s.generations.Keys))
    && forall d :: d in s.blobs ==> BlobName(d) !in env.misshapen
  }

  lemma SafeRemovable(env: Env, s: Store, t: Store, k: Kept)
    requires SweepSafe(env, s) && Part(t, s)
    ensures Removable(env, t, k)
  {
    hide Acyclic, PredecessorEdge, ObjectsPart;
    StillAcyclic(t.generations, s.generations, t.generations.Keys - k.generations, s.generations.Keys);
  }

  /** On such a store every round is admitted, and sweeping ends with everything settled. */
  lemma SafeSweepsSettle(env: Env, s: Store) returns (n: nat)
    requires Coherent(env) && Admissible(env, s, SWEEP) && SweepSafe(env, s)
    ensures forall m :: Admissible(env, Rounds(env, s, m), SWEEP)
    ensures n <= |s.plans| + 1 && Settled(Rounds(env, s, n))
  {
    hide Admissible, Retainable, Removable, KeptOf, Settled, KeptWithin, Part, Rounds, SweepSafe;
    AdmissibleMeans(env, s, SWEEP);
    forall m ensures SweepRemovable(env, Rounds(env, s, m)) && Admissible(env, Rounds(env, s, m), SWEEP) {
      SweepsMonotone(env, s, m);
      SafeRemovable(env, s, Rounds(env, s, m), KeptOf(Rounds(env, s, m), SWEEP));
    }
    n := SweepsConverge(env, s);
  }

  lemma FewerPlans(a: set<PlanId>, b: set<PlanId>)
    requires a <= b && a != b
    ensures |a| < |b|
  {
    SmallerSubset(a, b);
    assert b == a + (b - a);
    assert b - a != {};
  }

  /** A plan that survives a sweep finds its restore points, its pins and its own contents in place. */
  lemma SurvivorsIntact(env: Env, s: Store, p: PlanId)
    requires Coherent(env) && Admissible(env, s, SWEEP) && p in Swept(s).plans
    ensures var t := Swept(s); var plan := t.plans[p];
      && PointsHold(t.generations, PointsOf(plan.restorePoint, plan.authority))
      && (forall pin :: pin in plan.authority.pins ==> PinStored(t, pin))
      && (forall a :: a in plan.artifacts ==> BlobHolds(env, t, a.digest, a.byteLen))
  {
    hide Swept, KeptOf, KeptWithin, PointsHold, WithinBudget, LoadsHold, LineagesHold, TargetsHold, RootsOf, PointsOf, PinStored,
      Reachable, NeededPlans, GenerationRoots, Closed, KeptStored, ManifestsHold, GenerationsRebuild, HeadsHold, PacksShaped, CanonicalShaped;
    var t := Swept(s);
    AdmissibleMeans(env, s, SWEEP);
    SweepStep(env, s);
    KeptIsLeast(env, t, SWEEP);
    ClaimsAreRoots(t, t.plans.Keys, p);
    assert Chosen(t, SWEEP) == t.plans.Keys;
    var roots := RootsOf(t, t.plans.Keys);
    FewerPointsHold(t.generations, PointsOf(t.plans[p].restorePoint, t.plans[p].authority), roots.points);
    forall pin | pin in t.plans[p].authority.pins ensures PinStored(t, pin) {
      PinsStored(t, SWEEP, pin);
    }
  }

  ghost predicate PinStored(t: Store, pin: Pin) {
    match pin
    case PinPlan(p) => p in t.plans
    case PinGeneration(d) => d in t.generations
    case PinBlob(d) => d in t.blobs
    case PinPack(d) => d in t.packs || d in t.manifests
    case PinFile(d) => d in t.objects.files
    case PinSymlink(d) => d in t.objects.symlinks
    case PinTree(d) => d in t.objects.trees
  }

  lemma ClaimsAreRoots(t: Store, chosen: set<PlanId>, p: PlanId)
    requires p in chosen && p in t.plans
    ensures PointsOf(t.plans[p].restorePoint, t.plans[p].authority) <= RootsOf(t, chosen).points
    ensures forall pin :: pin in t.plans[p].authority.pins ==> pin in RootsOf(t, chosen).pins
  {
    hide PointsOf;
    assert t.plans[p] in PlanRecords(t, chosen);
  }

  lemma FewerPointsHold(gens: Generations, few: set<RestorePoint>, many: set<RestorePoint>)
    requires few <= many && PointsHold(gens, many)
    ensures PointsHold(gens, few)
  {
  }

  lemma PinsStored(t: Store, req: Request, pin: Pin)
    requires pin in RootsOf(t, Chosen(t, req)).pins && Closed(t, req, KeptOf(t, req)) && KeptStored(t, KeptOf(t, req))
    requires LineagesHold(t.generations, GenerationRoots(RootsOf(t, Chosen(t, req))))
    ensures PinStored(t, pin)
  {
    hide RootsOf, KeptOf, FollowsRecords, FollowsHistory;
    var roots, k := RootsOf(t, Chosen(t, req)), KeptOf(t, req);
    KeptGenerations(t, req);
    match pin {
      case PinPlan(p) =>
        assert p in PinnedPlans(roots) && p in k.plans;
      case PinGeneration(d) =>
        var root := (d, 1);
        assert root in GenerationRoots(roots) && LineageHolds(t.generations, root);
        assert Ancestor(t.generations, d, 0) == Some(d);
      case PinBlob(d) =>
        assert d in PinnedBlobs(roots) && d in k.blobs;
      case PinPack(d) =>
        assert d in PinnedPacks(roots) && d in k.packs;
      case PinFile(d) =>
        assert d in PinnedMarks(roots).files && d in k.marks.files;
      case PinSymlink(d) =>
        assert d in PinnedMarks(roots).symlinks && d in k.marks.symlinks;
      case PinTree(d) =>
        assert d in PinnedMarks(roots).trees && d in k.marks.trees;
    }
  }
}
