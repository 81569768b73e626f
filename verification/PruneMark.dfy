/** The checks and the mark phase of a prune, step by step, up to the decision what to remove. */
module PruneMark {
  import opened Base
  import opened Graphs
  import opened Canonical
  import opened Names
  import opened TreeGraph
  import opened TreeClosure
  import opened Loader
  import opened Store
  import opened RemovalOrder
  import opened Retention
  import opened RetentionClosure
  import opened Readmission
  import opened RetainedRoots

  datatype PruneError = MissingPlan | PlanInUse | Invalid

  /** What is to stay, and the order in which the other generations go. */
  datatype Decision = Decision(kept: Kept, order: seq<Digest>)

  // ----- Charging

  lemma ChargeOne(env: Env, names: set<Name>, done: set<Name>, n: Name)
    requires done <= names && n in names && n !in done
    ensures SumOver(done + {n}, env.sizes) == SumOver(done, env.sizes) + env.sizes(n) <= SumOver(names, env.sizes)
  {
    SumOverRemove(done + {n}, env.sizes, n);
    assert done + {n} - {n} == done;
    SumOverMonotone(done + {n}, names, env.sizes);
  }

  /** Charges the sizes of entries as they are read. */
  method ChargeNames(env: Env, spent: nat, names: set<Name>) returns (ok: bool, total: nat)
    requires spent <= MAX_RETENTION_DECODED_BYTES
    ensures ok <==> spent + SumOver(names, env.sizes) <= MAX_RETENTION_DECODED_BYTES
    ensures ok ==> total == spent + SumOver(names, env.sizes)
  {
    total := spent;
    var done: set<Name> := {};
    while done != names
      invariant done <= names && total == spent + SumOver(done, env.sizes) <= MAX_RETENTION_DECODED_BYTES
      decreases names - done
    {
      assert !(names <= done);
      var n :| n in names && n !in done;
      ChargeOne(env, names, done, n);
      total := total + env.sizes(n);
      if total > MAX_RETENTION_DECODED_BYTES {
        return false, total;
      }
      done := done + {n};
    }
    ok := true;
  }

  lemma AdmittedMeans(env: Env, s: Store, bytes: nat, items: nat, roots: set<Digest>, direct: set<Digest>)
    ensures LoadAdmitted(DiskOf(env, s), bytes, items, roots, direct) <==>
      Loads(env, s, roots, direct) && items + LoadItems(s, roots, direct) <= MAX_RETENTION_ENTRIES
      && bytes + LoadBytes(env, s, roots, direct) <= MAX_RETENTION_DECODED_BYTES
  {
    hide ClosureOf, ValidTree, Readable, Work;
  }

  /** One load of canonical roots under the shared budget. */
  method LoadState(env: Env, s: Store, budget: LoadBudget, roots: set<Digest>, direct: set<Digest>) returns (ok: bool, found: Marks)
    requires budget.Within() && WellNamedTrees(s.objects.trees)
    modifies budget
    ensures ok <==>
      Loads(env, s, roots, direct) && old(budget.items) + LoadItems(s, roots, direct) <= MAX_RETENTION_ENTRIES
      && old(budget.bytes) + LoadBytes(env, s, roots, direct) <= MAX_RETENTION_DECODED_BYTES
    ensures ok ==> budget.Within() && budget.items == old(budget.items) + LoadItems(s, roots, direct)
    ensures ok ==> budget.bytes == old(budget.bytes) + LoadBytes(env, s, roots, direct)
    ensures ok ==> found == ClosureOf(s.objects.trees, Marks({}, direct, roots))
  {
    hide ClosureOf, ValidTree, Readable, Work, LoadAdmitted, MarkNames, WellNamedTrees, Loads;
    AdmittedMeans(env, s, budget.bytes, budget.items, roots, direct);
    var objects;
    ok, objects := LoadCanonicalRoots(DiskOfStore(env, s), budget, roots, direct);
    found := Marks(objects.files.Keys, objects.symlinks.Keys, objects.trees.Keys);
  }

  function DiskOfStore(env: Env, s: Store): (disk: Disk)
    ensures disk == DiskOf(env, s)
  {
    Disk(s.objects, env.sizes, env.misshapen + env.damaged)
  }

  // ----- Records

  ghost function AllTrees(s: Store): set<Digest> { StateTrees(s, s.generations.Keys, s.plans.Keys) }
  ghost function AllLinks(s: Store): set<Digest> { StateLinks(s, s.generations.Keys, s.plans.Keys) }

  ghost function RecordBytes(env: Env, s: Store): nat { SumOver(RecordNames(s), env.sizes) + LoadBytes(env, s, AllTrees(s), AllLinks(s)) }

  ghost predicate RecordsAdmitted(env: Env, s: Store, req: Request) {
    && DirectoriesBounded(s) && RecordsSound(env, s) && req.plans <= s.plans.Keys
    && ArtifactsHold(env, s) && GenerationsRebuild(env, s) && HeadsHold(env, s)
    && Loads(env, s, AllTrees(s), AllLinks(s))
    && LoadItems(s, AllTrees(s), AllLinks(s)) <= MAX_RETENTION_ENTRIES && RecordBytes(env, s) <= MAX_RETENTION_DECODED_BYTES
  }

  ghost predicate Charged(env: Env, s: Store, budget: LoadBudget)
    reads budget
  {
    budget.bytes == RecordBytes(env, s) && budget.items == LoadItems(s, AllTrees(s), AllLinks(s))
  }

  /** Reads all records, checks them against each other, and loads every canonical root they name. */
  method CheckRecords(env: Env, s: Store, req: Request) returns (r: Result<LoadBudget, PruneError>)
    requires WellNamedTrees(s.objects.trees)
    ensures r.Success? <==> RecordsAdmitted(env, s, req)
    ensures r.Success? ==> fresh(r.value) && r.value.Within() && Charged(env, s, r.value)
    ensures r == Failure(MissingPlan) ==> !(req.plans <= s.plans.Keys)
    ensures r != Failure(PlanInUse)
  {
    hide DirectoriesBounded, RecordsSound, ArtifactsHold, GenerationsRebuild, HeadsHold, Loads, LoadItems, LoadBytes, RecordNames,
      StateTrees, StateLinks, WellNamedTrees;
    if !DirectoriesBounded(s) || !RecordsSound(env, s) {
      return Failure(Invalid);
    }
    var ok, spent := ChargeNames(env, 0, RecordNames(s));
    if !ok {
      return Failure(Invalid);
    }
    if !(req.plans <= s.plans.Keys) {
      return Failure(MissingPlan);
    }
    if !ArtifactsHold(env, s) || !GenerationsRebuild(env, s) {
      return Failure(Invalid);
    }
    var budget := new LoadBudget(spent);
    var found;
    ok, found := LoadState(env, s, budget, StateTrees(s, s.generations.Keys, s.plans.Keys), StateLinks(s, s.generations.Keys, s.plans.Keys));
    if !ok || !HeadsHold(env, s) {
      return Failure(Invalid);
    }
    r := Success(budget);
  }

  // ----- Reachable generations and surviving plans

  /** Adds what the reachable generations need. */
  method AddGenerations(s: Store, reach: set<Digest>, retained: RetainedClosure)
    requires reach <= s.generations.Keys
    modifies retained`planIds, retained`blobs
    ensures retained.planIds == old(retained.planIds) + PlansOf(s, reach)
    ensures retained.blobs == old(retained.blobs) + GenerationsBlobs(s, reach)
  {
    hide GenerationBlobs;
    var done: set<Digest> := {};
    assert PlansOf(s, done) == {} && GenerationsBlobs(s, done) == {};
    while done != reach
      invariant done <= reach
      invariant retained.planIds == old(retained.planIds) + PlansOf(s, done)
      invariant retained.blobs == old(retained.blobs) + GenerationsBlobs(s, done)
      decreases reach - done
    {
      assert !(reach <= done);
      var d :| d in reach && d !in done;
      OneMoreGeneration(s, done, d);
      retained.planIds := retained.planIds + {s.generations[d].planId};
      retained.blobs := retained.blobs + GenerationBlobs(s.generations[d]);
      done := done + {d};
    }
  }

  ghost function PlansOf(s: Store, reach: set<Digest>): set<PlanId> { set d | d in reach && d in s.generations :: s.generations[d].planId }

  ghost function GenerationsBlobs(s: Store, reach: set<Digest>): set<Digest> {
    set g, d | g in GenerationRecords(s, reach) && d in GenerationBlobs(g) :: d
  }

  lemma OneMoreGeneration(s: Store, done: set<Digest>, d: Digest)
    requires d in s.generations
    ensures PlansOf(s, done + {d}) == PlansOf(s, done) + {s.generations[d].planId}
    ensures GenerationsBlobs(s, done + {d}) == GenerationsBlobs(s, done) + GenerationBlobs(s.generations[d])
  {
    hide GenerationBlobs;
    assert GenerationRecords(s, done + {d}) == GenerationRecords(s, done) + {s.generations[d]};
  }

  /** Adds what the surviving plans need. */
  method AddPlans(s: Store, plans: set<PlanId>, retained: RetainedClosure)
    requires plans <= s.plans.Keys
    modifies retained`blobs, retained`packs
    ensures retained.blobs == old(retained.blobs) + PlansBlobs(s, plans)
    ensures retained.packs == old(retained.packs) + PlansPacks(s, plans)
  {
    hide ArtifactBlobs, PackRoots;
    var done: set<PlanId> := {};
    assert PlansBlobs(s, done) == {} && PlansPacks(s, done) == {};
    while done != plans
      invariant done <= plans
      invariant retained.blobs == old(retained.blobs) + PlansBlobs(s, done)
      invariant retained.packs == old(retained.packs) + PlansPacks(s, done)
      decreases plans - done
    {
      assert !(plans <= done);
      var p :| p in plans && p !in done;
      OneMorePlan(s, done, p);
      retained.blobs := retained.blobs + ArtifactBlobs(s.plans[p]);
      retained.packs := retained.packs + PackRoots(s.plans[p]);
      done := done + {p};
    }
  }

  ghost function PlansBlobs(s: Store, plans: set<PlanId>): set<Digest> { set r, d | r in PlanRecords(s, plans) && d in ArtifactBlobs(r) :: d }

  ghost function PlansPacks(s: Store, plans: set<PlanId>): set<Digest> { set r, d | r in PlanRecords(s, plans) && d in PackRoots(r) :: d }

  lemma OneMorePlan(s: Store, done: set<PlanId>, p: PlanId)
    requires p in s.plans
    ensures PlansBlobs(s, done + {p}) == PlansBlobs(s, done) + ArtifactBlobs(s.plans[p])
    ensures PlansPacks(s, done + {p}) == PlansPacks(s, done) + PackRoots(s.plans[p])
  {
    hide ArtifactBlobs, PackRoots;
    assert PlanRecords(s, done + {p}) == PlanRecords(s, done) + {s.plans[p]};
  }

  ghost predicate RootsAdmitted(env: Env, s: Store, req: Request) {
    var roots := RootsOf(s, Chosen(s, req));
    var reach := Reachable(s.generations, roots);
    && PointsHold(s.generations, roots.points)
    && LineagesHold(s.generations, GenerationRoots(roots))
    && TargetsHold(env, s, reach)
    && NeededPlans(s, roots, reach) <= s.plans.Keys
    && NeededPlans(s, roots, reach) !! req.plans
  }

  /** The closure once generations and plans have been followed. */
  ghost predicate Followed(s: Store, req: Request, retained: RetainedClosure, reach: set<Digest>, plans: set<PlanId>)
    reads retained
  {
    var roots := RootsOf(s, Chosen(s, req));
    && reach == Reachable(s.generations, roots) && plans == Survivors(s, req, NeededPlans(s, roots, reach))
    && retained.planIds == NeededPlans(s, roots, reach)
    && retained.blobs == BlobsOf(s, roots, reach, plans) && retained.packs == PacksOf(s, roots, plans)
    && Marks(retained.pinnedFiles, retained.pinnedSymlinks, retained.pinnedTrees) == PinnedMarks(roots)
  }

  /** Marks generations and plans.  A requested plan that is still needed stops the prune. */
  method MarkRecords(env: Env, s: Store, req: Request)
    returns (r: Result<RetainedClosure, PruneError>, reach: set<Digest>, plans: set<PlanId>)
    requires forall h :: h in s.catalog ==> h.generation in s.generations
    ensures r.Success? <==> RootsAdmitted(env, s, req)
    ensures r.Success? ==> fresh(r.value) && Followed(s, req, r.value, reach, plans)
    ensures r == Failure(PlanInUse) ==>
      !(NeededPlans(s, RootsOf(s, Chosen(s, req)), Reachable(s.generations, RootsOf(s, Chosen(s, req)))) !! req.plans)
    ensures r != Failure(MissingPlan)
  {
    hide RootsOf, Reachable, PointsHold, LineagesHold, GenerationRoots, TargetsHold, PinnedMarks, PinnedPlans, PinnedBlobs, PinnedPacks,
      GenerationsBlobs, PlansBlobs, PlansPacks, PlansOf;
    reach, plans := {}, {};
    var chosen := Chosen(s, req);
    ghost var roots := RootsOf(s, chosen);
    var ok, retained := CollectRoots(s, chosen);
    if !ok {
      return Failure(Invalid), reach, plans;
    }
    ok, reach := ReachGenerations(s.generations, retained.generationRoots, roots);
    if !ok {
      return Failure(Invalid), reach, plans;
    }
    ReachStored(s.generations, roots);
    if !TargetsHold(env, s, reach) {
      return Failure(Invalid), reach, plans;
    }
    AddGenerations(s, reach, retained);
    NeededIs(s, roots, reach);
    if !(retained.planIds <= s.plans.Keys) {
      return Failure(Invalid), reach, plans;
    }
    if !(retained.planIds !! req.plans) {
      return Failure(PlanInUse), reach, plans;
    }
    plans := Survivors(s, req, retained.planIds);
    AddPlans(s, plans, retained);
    BlobsAre(s, roots, reach, plans);
    r := Success(retained);
  }

  lemma ReachStored(gens: Generations, roots: Roots)
    ensures Reachable(gens, roots) <= gens.Keys
  {
  }

  lemma NeededIs(s: Store, roots: Roots, reach: set<Digest>)
    ensures NeededPlans(s, roots, reach) == PinnedPlans(roots) + PlansOf(s, reach)
  {
  }

  lemma BlobsAre(s: Store, roots: Roots, reach: set<Digest>, plans: set<PlanId>)
    ensures BlobsOf(s, roots, reach, plans) == PinnedBlobs(roots) + GenerationsBlobs(s, reach) + PlansBlobs(s, plans)
    ensures PacksOf(s, roots, plans) == PinnedPacks(roots) + PlansPacks(s, plans)
  {
    hide PinnedBlobs, PinnedPacks, GenerationBlobs, ArtifactBlobs, PackRoots;
  }

  // ----- Objects

  /** What is left to check once generations and plans are marked. */
  ghost predicate ObjectsAdmitted(env: Env, s: Store, roots: Roots, k: Kept) {
    && Loads(env, s, PinnedMarks(roots).trees, PinnedMarks(roots).symlinks)
    && KeptHolds(env, s, k) && PacksShaped(env, s) && CanonicalShaped(env, s)
    && ItemsCharged(s, roots, k) <= MAX_RETENTION_ENTRIES && BytesCharged(env, s, roots, k) <= MAX_RETENTION_DECODED_BYTES
  }

  lemma AdmittedInStages(env: Env, s: Store, req: Request)
    ensures Admissible(env, s, req) <==>
      RecordsAdmitted(env, s, req) && RootsAdmitted(env, s, req) && ObjectsAdmitted(env, s, RootsOf(s, Chosen(s, req)), KeptOf(s, req))
  {
    hide RootsOf, KeptOf, KeptHolds, Loads, LoadItems, LoadBytes, StateTrees, StateLinks, PinnedMarks, RecordNames, TreeNames, ManifestNames,
      DirectoriesBounded, RecordsSound, ArtifactsHold, GenerationsRebuild, HeadsHold, PacksShaped, CanonicalShaped, PointsHold, LineagesHold,
      TargetsHold, NeededPlans, Reachable, GenerationRoots;
  }

  lemma PinnedClosure(trees: Trees, x: Marks)
    ensures ClosureOf(trees, x) == Join2(ClosureOf(trees, Marks({}, x.symlinks, x.trees)), Marks(x.files, {}, {}))
  {
    hide UnfoldTree;
    var a, b := ClosureOf(trees, x), Join2(ClosureOf(trees, Marks({}, x.symlinks, x.trees)), Marks(x.files, {}, {}));
    assert a.files == b.files && a.symlinks == b.symlinks && a.trees == b.trees;
  }

  /** The two loads of what is retained and what is pinned. */
  method LoadRetained(env: Env, s: Store, budget: LoadBudget, reach: set<Digest>, plans: set<PlanId>, pinned: Marks)
    returns (ok: bool, marks: Marks)
    requires budget.Within() && WellNamedTrees(s.objects.trees)
    requires reach <= s.generations.Keys && plans <= s.plans.Keys && Loads(env, s, AllTrees(s), AllLinks(s))
    modifies budget
    ensures ok <==>
      Loads(env, s, pinned.trees, pinned.symlinks)
      && old(budget.items) + RetainedItems(s, reach, plans, pinned) <= MAX_RETENTION_ENTRIES
      && old(budget.bytes) + RetainedBytes(env, s, reach, plans, pinned) <= MAX_RETENTION_DECODED_BYTES
    ensures ok ==> budget.Within() && budget.bytes == old(budget.bytes) + RetainedBytes(env, s, reach, plans, pinned)
    ensures ok ==> marks == Join2(StateMarks(s, reach, plans), ClosureOf(s.objects.trees, pinned))
  {
    hide Loads, LoadItems, LoadBytes, StateTrees, StateLinks, WellNamedTrees, ClosureOf;
    StateSubset(s, reach, plans);
    LoadsFewer(env, s, StateTrees(s, reach, plans), StateLinks(s, reach, plans), AllTrees(s), AllLinks(s));
    marks := pinned;
    var state, more;
    ok, state := LoadState(env, s, budget, StateTrees(s, reach, plans), StateLinks(s, reach, plans));
    if !ok {
      return;
    }
    ok, more := LoadState(env, s, budget, pinned.trees, pinned.symlinks);
    if !ok {
      return;
    }
    PinnedClosure(s.objects.trees, pinned);
    marks := Marks(state.files + (more.files + pinned.files), state.symlinks + more.symlinks, state.trees + more.trees);
    assert marks == Join2(state, Join2(more, Marks(pinned.files, {}, {})));
  }

  ghost function RetainedItems(s: Store, reach: set<Digest>, plans: set<PlanId>, pinned: Marks): nat {
    LoadItems(s, StateTrees(s, reach, plans), StateLinks(s, reach, plans)) + LoadItems(s, pinned.trees, pinned.symlinks)
  }

  ghost function RetainedBytes(env: Env, s: Store, reach: set<Digest>, plans: set<PlanId>, pinned: Marks): nat {
    LoadBytes(env, s, StateTrees(s, reach, plans), StateLinks(s, reach, plans)) + LoadBytes(env, s, pinned.trees, pinned.symlinks)
  }

  /** Checks that everything to be kept is stored, that what is to be removed is in shape, and in which order
      the generations can go. */
  method CheckKept(env: Env, s: Store, spent: nat, direct: set<Digest>, k: Kept) returns (r: Result<seq<Digest>, PruneError>)
    requires spent <= MAX_RETENTION_DECODED_BYTES && k.blobs == direct + MemberBlobs(s, k.packs)
    ensures r.Success? <==>
      KeptHolds(env, s, k) && PacksShaped(env, s) && CanonicalShaped(env, s)
      && spent + SumOver(ManifestNames(s, k.packs), env.sizes) + SumOver(TreeNames(s), env.sizes) <= MAX_RETENTION_DECODED_BYTES
    ensures r.Success? ==> ChildrenFirst(s.generations, s.generations.Keys - k.generations, r.value)
    ensures r.Failure? ==> r.error == Invalid
  {
    hide ManifestsHold, MemberBlobs, PacksShaped, CanonicalShaped, RemovedBlobsShaped, ManifestNames, TreeNames, Acyclic, ChildrenFirst;
    if !(direct <= s.blobs) || !ManifestsHold(env, s, k.packs) {
      return Failure(Invalid);
    }
    MembersStored(env, s, k.packs);
    var ok, total := ChargeNames(env, spent, ManifestNames(s, k.packs));
    if !ok || !PacksShaped(env, s) || !(k.packs <= s.packs + s.manifests.Keys) || !CanonicalShaped(env, s) {
      return Failure(Invalid);
    }
    ok, total := ChargeNames(env, total, TreeNames(s));
    if !ok || !(k.marks.files <= s.objects.files.Keys && k.marks.symlinks <= s.objects.symlinks.Keys && k.marks.trees <= s.objects.trees.Keys) {
      return Failure(Invalid);
    }
    if !RemovedBlobsShaped(env, s, k.blobs) {
      return Failure(Invalid);
    }
    var order := OrderGenerationRemovals(s.generations, k.generations);
    if order.Failure? {
      return Failure(Invalid);
    }
    r := Success(order.value);
  }

  lemma MembersStored(env: Env, s: Store, packs: set<Digest>)
    requires ManifestsHold(env, s, packs)
    ensures MemberBlobs(s, packs) <= s.blobs
  {
  }

  /** The whole decision: it is reached exactly when every check passes, and keeps exactly what is retained. */
  method Decide(env: Env, s: Store, req: Request) returns (r: Result<Decision, PruneError>)
    requires WellNamedTrees(s.objects.trees)
    ensures r.Success? <==> Admissible(env, s, req)
    ensures r.Success? ==> r.value.kept == KeptOf(s, req)
    ensures r.Success? ==> ChildrenFirst(s.generations, s.generations.Keys - r.value.kept.generations, r.value.order)
    ensures r == Failure(MissingPlan) ==> !(req.plans <= s.plans.Keys)
    ensures r == Failure(PlanInUse) ==>
      !(NeededPlans(s, RootsOf(s, Chosen(s, req)), Reachable(s.generations, RootsOf(s, Chosen(s, req)))) !! req.plans)
  {
    hide RootsOf, Admissible, RootsAdmitted, KeptHolds, Loads, LoadItems, LoadBytes, StateTrees, StateLinks, PinnedMarks, RecordNames, TreeNames,
      ManifestNames, PacksShaped, CanonicalShaped, NeededPlans, Reachable, BlobsOf, MemberBlobs, PacksOf, StateMarks, ClosureOf, ChildrenFirst,
      WellNamedTrees, HeadsHold, DirectoriesBounded, RecordsSound, ArtifactsHold, GenerationsRebuild, Survivors;
    AdmittedInStages(env, s, req);
    ghost var roots := RootsOf(s, Chosen(s, req));
    var read := CheckRecords(env, s, req);
    if read.Failure? {
      return Failure(read.error);
    }
    HeadsStored(env, s);
    var marked, reach, plans := MarkRecords(env, s, req);
    if marked.Failure? {
      return Failure(marked.error);
    }
    var budget, retained := read.value, marked.value;
    ReachStored(s.generations, roots);
    SurvivorsStored(s, req, retained.planIds);
    var ok, marks := LoadRetained(env, s, budget, reach, plans, Marks(retained.pinnedFiles, retained.pinnedSymlinks, retained.pinnedTrees));
    if !ok {
      return Failure(Invalid);
    }
    var k := Kept(reach, plans, retained.blobs + MemberBlobs(s, retained.packs), retained.packs, marks);
    assert k == KeptOf(s, req);
    var order := CheckKept(env, s, budget.bytes, retained.blobs, k);
    if order.Failure? {
      return Failure(order.error);
    }
    r := Success(Decision(k, order.value));
  }

  lemma HeadsStored(env: Env, s: Store)
    requires HeadsHold(env, s)
    ensures forall h :: h in s.catalog ==> h.generation in s.generations
  {
  }

  lemma SurvivorsStored(s: Store, req: Request, needed: set<PlanId>)
    ensures Survivors(s, req, needed) <= s.plans.Keys
  {
  }
}
