/** A store on which one sweep is not enough, and on which the second sweep may be refused. */
module SweepWitness {
  import opened Base
  import opened Graphs
  import opened Canonical
  import opened Names
  import opened TreeClosure
  import opened Loader
  import opened Store
  import opened RemovalOrder
  import opened Retention
  import opened CrashSafety
  import opened Readmission
  import opened Rerun
  import opened Sweeps
  import opened Witnesses

  /** One plan that nothing retains, and one blob that only this plan pins. */
  ghost function PinnedByTheSwept(): Store {
    var keep := Authority(1, [], [PinBlob(SECOND)]);
    Store([], map[], map[FIRST := Plan([], None, 0, None, keep, None, [], SECOND, [], [], [])], {SECOND}, {}, map[], NO_OBJECTS)
  }

  lemma NothingMarked(s: Store, roots: Roots)
    requires s.generations == map[] && PinnedMarks(roots) == Marks({}, {}, {})
    ensures KeptWith(s, roots, {}, {}) == Kept({}, {}, PinnedBlobs(roots) + MemberBlobs(s, PinnedPacks(roots)), PinnedPacks(roots), Marks({}, {}, {}))
  {
    hide PinnedPacks, PinnedBlobs, MemberBlobs, PinnedMarks;
    assert PacksOf(s, roots, {}) == PinnedPacks(roots);
    assert BlobsOf(s, roots, {}, {}) == PinnedBlobs(roots);
    assert StateTrees(s, {}, {}) == {} && StateLinks(s, {}, {}) == {};
    var x := ClosureOf(s.objects.trees, Marks({}, {}, {}));
    assert x.files == {} && x.symlinks == {} && x.trees == {};
  }

  lemma KeptBlobOnly(s: Store, pins: set<Pin>)
    requires s.generations == map[] && pins <= {PinBlob(SECOND)} && RootsOf(s, Chosen(s, SWEEP)) == Roots({}, {}, pins)
    ensures KeptOf(s, SWEEP) == Kept({}, {}, if pins == {} then {} else {SECOND}, {}, Marks({}, {}, {}))
  {
    hide RootsOf, KeptWith;
    var roots := Roots({}, {}, pins);
    assert PinnedPacks(roots) == {} && PinnedPlans(roots) == {} && PinnedBlobs(roots) == if pins == {} then {} else {SECOND};
    var m := PinnedMarks(roots);
    assert m.files == {} && m.symlinks == {} && m.trees == {};
    assert Reachable(s.generations, roots) == {};
    assert Survivors(s, SWEEP, {}) == {} && NeededPlans(s, roots, {}) == {};
    NothingMarked(s, roots);
    assert MemberBlobs(s, {}) == {};
  }

  lemma PinnedInBudget(env: Env)
    requires env.sizes == NOTHING_CHECKED.sizes
    ensures WithinBudget(env, PinnedByTheSwept(), Roots({}, {}, {PinBlob(SECOND)}), Kept({}, {}, {SECOND}, {}, Marks({}, {}, {})))
    ensures LoadsHold(env, PinnedByTheSwept(), Roots({}, {}, {PinBlob(SECOND)}))
  {
    hide Loads, LoadItems, LoadBytes, StateTrees, StateLinks, RecordNames, ManifestNames, TreeNames;
    var s, roots := PinnedByTheSwept(), Roots({}, {}, {PinBlob(SECOND)});
    var m := PinnedMarks(roots);
    assert m.files == {} && m.symlinks == {} && m.trees == {};
    assert s.plans.Keys == {FIRST} && s.generations.Keys == {};
    PinnedState(s);
    EmptyLoad(env, s);
    NothingWeighs(RecordNames(s));
    NothingWeighs(ManifestNames(s, {}));
    NothingWeighs(TreeNames(s));
  }

  lemma PinnedState(s: Store)
    requires s == PinnedByTheSwept()
    ensures StateTrees(s, {}, {FIRST}) == {} && StateLinks(s, {}, {FIRST}) == {}
    ensures StateTrees(s, {}, {}) == {} && StateLinks(s, {}, {}) == {}
  {
    var p := s.plans[FIRST];
    assert PlanRecords(s, {FIRST}) == {p} && GenerationRecords(s, {}) == {};
    assert TreeRoots(p.targets, p.trackedRoot) == {} && LinkRoots(p.targets) == {};
  }

  lemma PinnedStoreHolds()
    ensures StoreHolds(NOTHING_CHECKED, PinnedByTheSwept())
    ensures Acyclic(PredecessorEdge(map[], {}))
  {
    hide Acyclic, PredecessorEdge, Reachable, NeededPlans, GenerationRoots;
    var s := PinnedByTheSwept();
    NoHistory(s.generations, s);
    assert s.generations.Keys - {} == s.generations.Keys == {};
    assert Selected(s) == [];
  }

  lemma PinnedRootsHold(env: Env)
    requires env.sizes == NOTHING_CHECKED.sizes
    ensures RootsHold(env, PinnedByTheSwept(), SWEEP)
  {
    hide RootsOf, LoadsHold, Reachable, GenerationRoots, NeededPlans, PinnedPlans, LineageHolds, WithinBudget;
    var s, roots := PinnedByTheSwept(), Roots({}, {}, {PinBlob(SECOND)});
    PinRoots(s, Without(s, {PlanName(FIRST)}));
    OnlyABlobPinned(s);
    PinnedInBudget(env);
  }

  lemma OnlyABlobPinned(s: Store)
    requires s.generations == map[]
    ensures var roots := Roots({}, {}, {PinBlob(SECOND)});
      GenerationRoots(roots) == {} && Reachable(s.generations, roots) == {} && NeededPlans(s, roots, {}) == {}
  {
  }

  lemma PinnedKeptHolds()
    ensures KeptHolds(NOTHING_CHECKED, PinnedByTheSwept(), Kept({}, {}, {SECOND}, {}, Marks({}, {}, {})))
  {
    hide Acyclic, PredecessorEdge;
    var s := PinnedByTheSwept();
    PinnedStoreHolds();
    assert s.generations.Keys - {} == {};
  }

  lemma PinnedSweepable()
    ensures Admissible(NOTHING_CHECKED, PinnedByTheSwept(), SWEEP)
  {
    hide KeptOf, RootsOf, WithinBudget, StoreHolds, RootsHold, KeptHolds;
    var s := PinnedByTheSwept();
    PinRoots(s, Without(s, {PlanName(FIRST)}));
    KeptBlobOnly(s, {PinBlob(SECOND)});
    PinnedInBudget(NOTHING_CHECKED);
    PinnedStoreHolds();
    PinnedRootsHold(NOTHING_CHECKED);
    PinnedKeptHolds();
  }

  lemma PlanGoesFirst()
    ensures var s := PinnedByTheSwept();
      && Swept(s).plans == map[] && SECOND in Swept(s).blobs
      && CrashState(s, SWEEP, {PlanName(FIRST)})
      && SECOND !in Pruned(Without(s, {PlanName(FIRST)}), SWEEP).blobs
  {
    var s := PinnedByTheSwept();
    var t := Without(s, {PlanName(FIRST)});
    PinRoots(s, t);
    KeptBlobOnly(s, {PinBlob(SECOND)});
    KeptBlobOnly(t, {});
    GarbageIs(s, t);
  }

  /** The plan goes in the first sweep and its pin only in the second: a sweep that is interrupted after the
      plan and repeated removes the blob, which the uninterrupted sweep leaves. */
  lemma OneSweepIsNotEnough()
    ensures var s := PinnedByTheSwept();
      && Admissible(NOTHING_CHECKED, s, SWEEP)
      && Swept(s).plans == map[] && SECOND in Swept(s).blobs
      && CrashState(s, SWEEP, {PlanName(FIRST)})
      && SECOND !in Pruned(Without(s, {PlanName(FIRST)}), SWEEP).blobs
  {
    hide *;
    PinnedSweepable();
    PlanGoesFirst();
  }

  lemma PinRoots(s: Store, t: Store)
    requires s == PinnedByTheSwept() && t == Without(s, {PlanName(FIRST)})
    ensures RootsOf(s, Chosen(s, SWEEP)) == Roots({}, {}, {PinBlob(SECOND)})
    ensures RootsOf(t, Chosen(t, SWEEP)) == Roots({}, {}, {}) && t.generations == map[]
  {
    var p := s.plans[FIRST];
    assert Chosen(s, SWEEP) == {FIRST} && PlanRecords(s, {FIRST}) == {p};
    assert PointsOf(p.restorePoint, p.authority) == {};
    assert p.authority.pins == [PinBlob(SECOND)];
    assert Chosen(t, SWEEP) == {} && PlanRecords(t, {}) == {};
    assert HeadRecords(s) == {} && HeadRecords(t) == {};
    var x := RootsOf(s, {FIRST});
    assert PinBlob(SECOND) in p.authority.pins && p in PlanRecords(s, {FIRST});
    assert x.histories == {} && x.points == {} && x.pins == {PinBlob(SECOND)};
  }

  lemma GarbageIs(s: Store, t: Store)
    requires s == PinnedByTheSwept() && t == Without(s, {PlanName(FIRST)})
    requires KeptOf(s, SWEEP) == Kept({}, {}, {SECOND}, {}, Marks({}, {}, {})) && KeptOf(t, SWEEP) == Kept({}, {}, {}, {}, Marks({}, {}, {}))
    ensures Garbage(s, SWEEP) == {PlanName(FIRST)} && BlobName(SECOND) in Garbage(t, SWEEP)
  {
    hide KeptOf, Garbage;
    forall n ensures n in Garbage(s, SWEEP) <==> n == PlanName(FIRST) {
      GarbageMember(s, SWEEP, n);
    }
    GarbageMember(t, SWEEP, BlobName(SECOND));
  }

  // ----- A second sweep that is refused

  /** The same, except that the blob is not a regular file of the store. */
  const BLOB_OUT_OF_SHAPE := NOTHING_CHECKED.(misshapen := {BlobName(SECOND)})

  lemma OutOfShapeStoreHolds()
    ensures StoreHolds(BLOB_OUT_OF_SHAPE, PinnedByTheSwept())
  {
    var s := PinnedByTheSwept();
    assert Selected(s) == [];
  }

  lemma OutOfShapeAdmissible()
    ensures Admissible(BLOB_OUT_OF_SHAPE, PinnedByTheSwept(), SWEEP)
  {
    hide KeptOf, RootsOf, WithinBudget, StoreHolds, RootsHold, Acyclic, PredecessorEdge;
    var s := PinnedByTheSwept();
    PinRoots(s, Without(s, {PlanName(FIRST)}));
    KeptBlobOnly(s, {PinBlob(SECOND)});
    OutOfShapeStoreHolds();
    PinnedRootsHold(BLOB_OUT_OF_SHAPE);
    PinnedInBudget(BLOB_OUT_OF_SHAPE);
    PinnedStoreHolds();
    assert s.generations.Keys - {} == {};
  }

  lemma BlobMustGo()
    ensures var t := Swept(PinnedByTheSwept());
      SECOND in t.blobs && !RemovedBlobsShaped(BLOB_OUT_OF_SHAPE, t, KeptOf(t, SWEEP).blobs)
  {
    hide KeptOf;
    var s := PinnedByTheSwept();
    var t := Without(s, {PlanName(FIRST)});
    PinRoots(s, t);
    KeptBlobOnly(s, {PinBlob(SECOND)});
    KeptBlobOnly(t, {});
    GarbageIs(s, t);
    assert Swept(s) == t;
    assert SECOND in t.blobs;
  }

  /** The first sweep is admitted, since the pinned blob stays; the second one would remove it and is refused. */
  lemma SecondSweepMayBeRefused()
    ensures var s := PinnedByTheSwept();
      Admissible(BLOB_OUT_OF_SHAPE, s, SWEEP) && !Admissible(BLOB_OUT_OF_SHAPE, Swept(s), SWEEP)
  {
    hide KeptOf, RootsOf, WithinBudget, StoreHolds, RootsHold, Acyclic, PredecessorEdge, Swept, KeptStored, ManifestsHold, RemovedBlobsShaped;
    OutOfShapeAdmissible();
    BlobMustGo();
  }
}
