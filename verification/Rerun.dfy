/** Interrupted and repeated prunes. */
module Rerun {
  import opened Base
  import opened Graphs
  import opened Canonical
  import opened Names
  import opened TreeClosure
  import opened Loader
  import opened Store
  import opened RemovalOrder
  import opened Retention
  import opened RetentionClosure
  import opened Remnant
  import opened CrashSafety
  import opened Readmission

  ghost function Pruned(s: Store, req: Request): Store { Without(s, Garbage(s, req)) }

  lemma GarbageLeft(s: Store, req: Request, r: set<Name>, next: Request)
    requires r <= Garbage(s, req) && KeptOf(Without(s, r), next) == KeptOf(s, req)
    ensures r + Garbage(Without(s, r), next) == Garbage(s, req)
  {
    hide KeptOf, KeptNames, NamesOf, Without;
    NamesWithout(s, r);
  }

  /** An explicit prune that stops after any number of unlinks and is repeated for the plans still there
      is admitted again and ends in the store that the uninterrupted run would have left. */
  lemma RerunCompletes(env: Env, s: Store, req: Request, r: set<Name>)
    requires Coherent(env) && Admissible(env, s, req) && CrashState(s, req, r) && !req.sweep
    ensures var t := Without(s, r);
      Admissible(env, t, Remaining(req, t)) && Pruned(t, Remaining(req, t)) == Pruned(s, req)
  {
    hide KeptOf, Admissible, KeptWithin, Without, Garbage;
    var t := Without(s, r);
    Readmitted(env, s, req, r);
    assert r <= Garbage(s, req);
    GarbageLeft(s, req, r, Remaining(req, t));
    WithoutTwice(s, r, Garbage(t, Remaining(req, t)));
  }

  /** Every entry to be kept that was there still is. */
  ghost predicate NothingKeptMissing(s: Store, req: Request, t: Store) {
    forall n :: Keeps(KeptOf(s, req), n) && OnDisk(s, n) ==> OnDisk(t, n)
  }

  /** Every generation has the plan that produced it. */
  ghost predicate GenerationsHavePlans(t: Store) {
    forall d :: d in t.generations ==> t.generations[d].planId in t.plans
  }

  /** A generation still to be removed has the predecessor it had. */
  ghost predicate PredecessorsStay(s: Store, req: Request, t: Store) {
    forall d :: d in t.generations && d !in KeptOf(s, req).generations && t.generations[d].previous.Some? ==>
      (t.generations[d].previous.value in s.generations ==> t.generations[d].previous.value in t.generations)
  }

  lemma PlansOutliveGenerations(env: Env, s: Store, t: Store, k: Kept)
    requires Part(t, s) && Preserved(t, s, k) && InOrder(t, s, k) && FollowsRecords(s, k) && GenerationsRebuild(env, s)
    ensures GenerationsHavePlans(t)
  {
    hide ClosedUnderChildren, ObjectsPart, ObjectsPreserved, FollowsPlan, FollowsPack, Produced;
    forall d | d in t.generations ensures t.generations[d].planId in t.plans {
      assert Rebuilds(env, s.generations, s.plans, s.generations[d]);
      if t.generations.Keys <= k.generations {
        assert FollowsGeneration(k, s.generations[d]);
      }
    }
  }

  lemma PredecessorsOutlive(s: Store, req: Request, r: set<Name>)
    requires CrashState(s, req, r)
    ensures PredecessorsStay(s, req, Without(s, r))
  {
    hide KeptOf, Garbage;
    var t := Without(s, r);
    forall d | d in t.generations && d !in KeptOf(s, req).generations && t.generations[d].previous.Some?
      && t.generations[d].previous.value in s.generations
      ensures t.generations[d].previous.value in t.generations
    {
      GarbageMember(s, req, GenerationName(d));
    }
  }

  lemma KeptNotMissing(s: Store, req: Request, r: set<Name>)
    requires r <= Garbage(s, req)
    ensures NothingKeptMissing(s, req, Without(s, r))
  {
    hide KeptOf, Garbage, OnDisk, Keeps, Without;
    forall n | Keeps(KeptOf(s, req), n) && OnDisk(s, n) ensures OnDisk(Without(s, r), n) {
      GarbageMember(s, req, n);
      OnDiskWithout(s, r, n);
    }
  }

  /** At every crash point, explicit or sweep: nothing retained is missing, generations have their plans,
      plans have their artifacts with the right lengths, and everything recorded can be loaded. */
  lemma CrashPointSafe(env: Env, s: Store, req: Request, r: set<Name>)
    requires Admissible(env, s, req) && CrashState(s, req, r)
    ensures var t := Without(s, r);
      && NothingKeptMissing(s, req, t) && KeptStored(t, KeptOf(s, req))
      && GenerationsHavePlans(t) && ArtifactsHold(env, t) && PredecessorsStay(s, req, t)
      && Loads(env, t, StateTrees(t, t.generations.Keys, t.plans.Keys), StateLinks(t, t.generations.Keys, t.plans.Keys))
  {
    hide KeptOf, Without, RootsHold, WithinBudget, Part, Preserved, InOrder, FollowsRecords, FollowsPins, FollowsHistory, RootsOf,
      NothingKeptMissing, KeptStored, ManifestsHold, Acyclic, StateTrees, StateLinks, Loads, LoadItems, LoadBytes;
    var t, k := Without(s, r), KeptOf(s, req);
    PhasesInOrder(s, req, r);
    KeptIsLeast(env, s, req);
    KeptNotMissing(s, req, r);
    KeptStillStored(s, t, k, k);
    PlansOutliveGenerations(env, s, t, k);
    ArtifactsStillHold(env, s, t, k);
    PredecessorsOutlive(s, req, r);
    RecordedLoadShrinks(env, s, t, k);
    RecordedLoads(env, s, req);
  }

  lemma RecordedLoads(env: Env, s: Store, req: Request)
    requires RootsHold(env, s, req)
    ensures Loads(env, s, StateTrees(s, s.generations.Keys, s.plans.Keys), StateLinks(s, s.generations.Keys, s.plans.Keys))
  {
    hide Loads, StateTrees, StateLinks, RootsOf, Reachable, NeededPlans, PointsHold, LineagesHold, TargetsHold;
    assert LoadsHold(env, s, RootsOf(s, Chosen(s, req)));
  }

  // ----- A completed prune

  lemma AllGarbageRemoved(s: Store, req: Request)
    ensures CrashState(s, req, Garbage(s, req))
  {
  }

  lemma PlansLeft(s: Store, req: Request)
    ensures Pruned(s, req).plans.Keys == KeptOf(s, req).plans <= s.plans.Keys
    ensures Pruned(s, req).generations.Keys == KeptOf(s, req).generations <= s.generations.Keys
  {
    hide KeptOf, Garbage;
    KeptGenerations(s, req);
    forall p | p in s.plans ensures p in Pruned(s, req).plans <==> p in KeptOf(s, req).plans {
      GarbageMember(s, req, PlanName(p));
    }
    forall d | d in s.generations ensures d in Pruned(s, req).generations <==> d in KeptOf(s, req).generations {
      GarbageMember(s, req, GenerationName(d));
    }
  }

  lemma AdmissibleRoots(env: Env, s: Store, req: Request)
    requires Admissible(env, s, req)
    ensures RootsHold(env, s, req)
  {
    hide KeptOf, StoreHolds, RootsHold, WithinBudget, KeptHolds;
  }

  lemma NoneLeft(s: Store, req: Request, r: set<Name>)
    requires r == Garbage(s, req) && KeptOf(Without(s, r), req) == KeptOf(s, req)
    ensures Garbage(Without(s, r), req) == {}
  {
    hide KeptOf, Without, NamesOf, KeptNames;
    NamesWithout(s, r);
  }
}
