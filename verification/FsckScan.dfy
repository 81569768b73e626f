/** The authority part of the store check as it runs, adding findings as it goes. */
module FsckScan {
  import opened Base
  import opened Canonical
  import opened Names
  import opened Store
  import opened Retention
  import opened FsckMarks
  import opened FsckRoots

  /** The rest of a walk that has come to `current`. */
  ghost function RestOf(world: Store, namespace: Option<Namespace>, current: Option<Digest>, left: nat, seen: set<Digest>): Walk {
    if current.None? then Walk({}, {}) else WalkFrom(world, namespace, current.value, left, seen)
  }

  class Scan {
    /** Entries reported missing. */
    var missing: set<Name>

    constructor ()
      ensures missing == {}
    {
      missing := {};
    }

    /** Follows one root and reports what its history lacks. */
    method WalkGenerationRoot(world: Store, start: Start) returns (reached: set<Digest>)
      modifies this
      ensures missing == old(missing) + WalkStart(world, start).missing && reached == WalkStart(world, start).reached
    {
      var current, namespace, left := Some(start.digest), start.namespace, start.limit;
      var lineage: set<Digest> := {};
      reached := {};
      while left > 0 && current.Some?
        invariant WalkStart(world, start).reached == reached + RestOf(world, namespace, current, left, lineage).reached
        invariant old(missing) + WalkStart(world, start).missing == missing + RestOf(world, namespace, current, left, lineage).missing
        decreases left
      {
        var d := current.value;
        if d in lineage {
          return;
        }
        if d !in world.generations {
          missing := missing + {GenerationName(d)};
          return;
        }
        var g := world.generations[d];
        if namespace.Some? && namespace.value != g.namespace {
          return;
        }
        var floor := left == 1;
        missing := missing + TransitionMissing(world, g, floor);
        reached, lineage, namespace := reached + {d}, lineage + {d}, Some(g.namespace);
        current, left := if floor then None else g.previous, left - 1;
      }
    }

    method WalkAll(world: Store) returns (reached: set<Digest>)
      modifies this
      ensures reached == ReachedBy(world) && missing == old(missing) + MissingInWalks(world)
    {
      hide WalkStart, Starts;
      reached := {};
      var done: set<Start> := {};
      NoWalks(world);
      while done != Starts(world)
        invariant done <= Starts(world)
        invariant reached == ReachedUpTo(world, done) && missing == old(missing) + MissingUpTo(world, done)
        decreases Starts(world) - done
      {
        assert !(Starts(world) <= done);
        var st :| st in Starts(world) && st !in done;
        OneMoreWalk(world, done, st);
        var more := WalkGenerationRoot(world, st);
        reached := reached + more;
        done := done + {st};
      }
    }

    /** Everything that current authority needs and the store does not have. */
    method ValidateAuthority(world: Store) returns (marked: Marks)
      modifies this
      ensures LeastClosed(world.objects.trees, NeededMarks(world), marked)
      ensures missing == old(missing) + Missing(world, marked)
    {
      hide LeastClosed, MissingInWalks, Absent, RootsOf, BlobsOf, PacksOf, StateTrees, StateLinks, PinnedMarks, ReachedBy, Starts;
      var claimed, plans := Claimed(world), world.plans.Keys;
      missing := missing + MissingHeads(world) + MissingPoints(world);
      var reached := WalkAll(world);
      missing := missing + set d | d in world.generations && d !in reached && world.generations[d].planId !in world.plans :: PlanName(world.generations[d].planId);
      missing := missing + MissingPlans(world);
      var blobs := BlobsOf(world, claimed, reached, plans) + set r, d | r in PlanRecords(world, plans) && d in FileBlobs(r.targets) :: d;
      missing := missing + (set d | d in blobs && d !in world.blobs :: BlobName(d)) + MissingPacks(world);
      var pinned := PinnedMarks(claimed);
      var roots := Marks(pinned.files, pinned.symlinks + StateLinks(world, reached, plans), pinned.trees + StateTrees(world, reached, plans));
      var absent;
      marked, absent := MarkRoots(world.objects, roots);
      missing := missing + absent;
    }
  }

  ghost function ReachedUpTo(world: Store, done: set<Start>): set<Digest> {
    set st, d | st in done && d in WalkStart(world, st).reached :: d
  }

  ghost function MissingUpTo(world: Store, done: set<Start>): set<Name> {
    set st, n | st in done && n in WalkStart(world, st).missing :: n
  }

  lemma NoWalks(world: Store)
    ensures ReachedUpTo(world, {}) == {} && MissingUpTo(world, {}) == {}
    ensures ReachedUpTo(world, Starts(world)) == ReachedBy(world) && MissingUpTo(world, Starts(world)) == MissingInWalks(world)
  {
    hide WalkStart, Starts;
  }

  lemma OneMoreWalk(world: Store, done: set<Start>, st: Start)
    ensures ReachedUpTo(world, done + {st}) == ReachedUpTo(world, done) + WalkStart(world, st).reached
    ensures MissingUpTo(world, done + {st}) == MissingUpTo(world, done) + WalkStart(world, st).missing
  {
    hide WalkStart;
  }
}
