/** Inspection reads nothing that a prune may remove: no prune changes its result. */
module InspectionRetention {
  import opened Base
  import opened Graphs
  import opened Names
  import opened Store
  import opened Retention
  import opened RetentionClosure
  import opened Remnant
  import opened CrashSafety
  import opened Rerun
  import opened Lineage
  import opened Inventory

  // ----- What inspection reads is kept

  lemma {:induction false} ChainAncestor(gens: Generations, start: Digest, limit: nat, i: nat)
    requires i < |ChainOf(gens, start, limit)|
    ensures Ancestor(gens, start, i) == Some(ChainOf(gens, start, limit)[i])
  {
    ChainLength(gens, start, limit);
    if i > 0 {
      ChainAncestor(gens, start, limit, i - 1);
      ChainStep(gens, start, limit, i - 1);
    }
  }

  ghost predicate KeptWithPlans(s: Store, k: Kept, some: seq<Digest>) {
    forall d :: d in some ==> d in s.generations && d in k.generations && s.generations[d].planId in k.plans
  }

  lemma ReachedIsKept(env: Env, s: Store, req: Request, root: (Digest, nat), d: Digest)
    requires RootsHold(env, s, req) && root in GenerationRoots(RootsOf(s, Chosen(s, req))) && Within(s.generations, root, d)
    ensures KeptWithPlans(s, KeptOf(s, req), [d])
  {
    hide RootsOf, NeededPlans, LoadsHold, PointsHold, TargetsHold, KeptOf, GenerationRoots, Survivors, FollowsPins;
    assert LineageHolds(s.generations, root);
    KeptIsLeast(env, s, req);
    assert d in KeptOf(s, req).generations;
    assert FollowsGeneration(KeptOf(s, req), s.generations[d]);
  }

  lemma HeadClaims(s: Store, chosen: set<PlanId>, h: Head)
    requires h in s.catalog && h.generation in s.generations
    ensures var a, roots := s.generations[h.generation].authority, RootsOf(s, chosen);
      && (h.generation, a.history as nat) in GenerationRoots(roots)
      && forall d :: d in Named(a) ==> (d, 1) in GenerationRoots(roots)
  {
    var g, roots := s.generations[h.generation], RootsOf(s, chosen);
    assert (h.generation, g.authority.history as nat) in roots.histories;
    assert g in HeadRecords(s);
    forall d | d in Named(g.authority) ensures (d, 1) in GenerationRoots(roots) {
      if PinGeneration(d) in g.authority.pins {
        assert PinGeneration(d) in roots.pins;
      } else {
        var p :| p in g.authority.restorePoints && p.generation == d;
        assert p in PointsOf(g.restorePoint, g.authority) && p in roots.points;
      }
    }
  }

  lemma HistoryKept(env: Env, s: Store, req: Request, h: Head)
    requires RootsHold(env, s, req) && h in s.catalog && h.generation in s.generations
    ensures KeptWithPlans(s, KeptOf(s, req), HistoryOf(s, h.generation))
  {
    hide RootsOf, KeptOf, RootsHold, GenerationRoots, ChainOf;
    var root := (h.generation, s.generations[h.generation].authority.history as nat);
    var chain := HistoryOf(s, h.generation);
    HeadClaims(s, Chosen(s, req), h);
    ChainLength(s.generations, root.0, root.1);
    forall d | d in chain ensures KeptWithPlans(s, KeptOf(s, req), [d]) && d in [d] {
      var i :| 0 <= i < |chain| && chain[i] == d;
      ChainAncestor(s.generations, root.0, root.1, i);
      assert Within(s.generations, root, d);
      ReachedIsKept(env, s, req, root, d);
    }
  }

  lemma NamedKept(env: Env, s: Store, req: Request, h: Head, d: Digest)
    requires RootsHold(env, s, req) && h in s.catalog && h.generation in s.generations && d in Named(s.generations[h.generation].authority)
    ensures KeptWithPlans(s, KeptOf(s, req), [d])
  {
    hide RootsOf, KeptOf, RootsHold, GenerationRoots;
    HeadClaims(s, Chosen(s, req), h);
    assert Ancestor(s.generations, d, 0) == Some(d);
    assert Within(s.generations, (d, 1), d);
    ReachedIsKept(env, s, req, (d, 1), d);
  }

  /** Every generation that may be inspected survives any prune, and so does everything that is read when its
      lineage is followed to the depth granted. */
  lemma AuthorisedIsKept(env: Env, s: Store, req: Request, h: Head, namespace: Namespace, target: Digest, depth: nat)
    requires RootsHold(env, s, req) && h in s.catalog && h.generation in s.generations
    requires Authorised(env, s, namespace, h.generation, target, depth)
    ensures depth > 0 && KeptWithPlans(s, KeptOf(s, req), ChainOf(s.generations, target, depth))
    ensures target in ChainOf(s.generations, target, depth)
  {
    hide RootsOf, KeptOf, RootsHold, GenerationRoots, ChainOf;
    var a, chain := s.generations[h.generation].authority, HistoryOf(s, h.generation);
    HistoryKept(env, s, req, h);
    ChainLength(s.generations, h.generation, a.history);
    if NamedOnly(env, s, namespace, chain, a, target) && depth == 1 {
      NamedIsDirect(a, target);
      NamedKept(env, s, req, h, target);
      ChainOfOne(s.generations, target);
    } else {
      var i: nat :| FoundAt(env, s, namespace, chain, target, i) && depth == a.history - i;
      ChainSplit(s.generations, h.generation, a.history, i);
      assert forall d :: d in chain[i..] ==> d in chain;
    }
    ChainLength(s.generations, target, depth);
  }

  lemma ChainOfOne(gens: Generations, d: Digest)
    ensures ChainOf(gens, d, 1) == [d]
  {
    if d in gens && gens[d].previous.Some? {
      assert ChainOf(gens, gens[d].previous.value, 0) == [];
    }
  }

  // ----- No prune changes what inspection finds

  /** `t` holds the same generation and the same plan. */
  ghost predicate SameRecord(t: Store, s: Store, d: Digest) {
    && d in s.generations && d in t.generations && t.generations[d] == s.generations[d]
    && var p := s.generations[d].planId; p in s.plans && p in t.plans && t.plans[p] == s.plans[p]
  }

  ghost predicate SameRecords(t: Store, s: Store, some: seq<Digest>) { forall d :: d in some ==> SameRecord(t, s, d) }

  lemma {:induction false} ChainSame(t: Store, s: Store, start: Digest, limit: nat)
    requires SameRecords(t, s, ChainOf(s.generations, start, limit))
    ensures ChainOf(t.generations, start, limit) == ChainOf(s.generations, start, limit)
    decreases limit
  {
    if limit > 0 {
      var chain := ChainOf(s.generations, start, limit);
      assert start in chain && SameRecord(t, s, start);
      var previous := s.generations[start].previous;
      if previous.Some? {
        assert chain == [start] + BehindOf(s.generations, start, limit);
        assert BehindOf(s.generations, start, limit) == ChainOf(s.generations, previous.value, limit - 1);
        ChainSame(t, s, previous.value, limit - 1);
      }
    }
  }

  lemma {:induction false} CostSame(env: Env, t: Store, s: Store, chain: seq<Digest>, limit: nat)
    requires SameRecords(t, s, chain)
    ensures ChainCost(env, t, chain, limit) == ChainCost(env, s, chain, limit)
    decreases |chain|
  {
    if chain != [] {
      assert chain[0] in chain && SameRecord(t, s, chain[0]);
      CostSame(env, t, s, chain[1..], if limit > 0 then limit - 1 else 0);
    }
  }

  /** An inspection of a chain depends on its members and their plans only. */
  lemma ChainHoldsSame(env: Env, t: Store, s: Store, namespace: Namespace, start: Digest, limit: nat, maxBytes: nat)
    requires SameRecords(t, s, ChainOf(s.generations, start, limit))
    ensures ChainHolds(env, t, namespace, start, limit, maxBytes) <==> ChainHolds(env, s, namespace, start, limit, maxBytes)
    ensures ChainCost(env, t, ChainOf(s.generations, start, limit), limit) == ChainCost(env, s, ChainOf(s.generations, start, limit), limit)
  {
    hide ChainOf, ChainCost, Distinct;
    var chain := ChainOf(s.generations, start, limit);
    ChainSame(t, s, start, limit);
    CostSame(env, t, s, chain, limit);
    forall i | 0 <= i < |chain|
      ensures MemberHolds(env, t, namespace, chain[i], i + 1 == limit) <==> MemberHolds(env, s, namespace, chain[i], i + 1 == limit)
    {
      ChainStep(s.generations, start, limit, i);
      assert SameRecord(t, s, chain[i]);
      if i + 1 < |chain| {
        assert SameRecord(t, s, chain[i + 1]);
      }
    }
  }

  /** What a prune leaves of the records it keeps. */
  lemma KeptSame(env: Env, s: Store, req: Request, some: seq<Digest>)
    requires Admissible(env, s, req) && KeptWithPlans(s, KeptOf(s, req), some)
    ensures SameRecords(Pruned(s, req), s, some)
  {
    hide KeptOf, Garbage, RootsHold, KeptHolds, WithinBudget, HeadsHold, PacksShaped, CanonicalShaped, ArtifactsHold;
    var t := Pruned(s, req);
    PlansLeft(s, req);
    forall d | d in some ensures SameRecord(t, s, d) {
      assert Rebuilds(env, s.generations, s.plans, s.generations[d]);
    }
  }

  /** The lineage of an authorised generation passes inspection after a prune exactly when it did before. */
  lemma PruneInvisibleToLineage(env: Env, s: Store, req: Request, h: Head, namespace: Namespace, target: Digest, depth: nat, maxBytes: nat)
    requires Admissible(env, s, req) && h in s.catalog && h.generation in s.generations
    requires Authorised(env, s, namespace, h.generation, target, depth)
    ensures ChainHolds(env, Pruned(s, req), namespace, target, depth, maxBytes) <==> ChainHolds(env, s, namespace, target, depth, maxBytes)
  {
    hide Admissible, KeptOf, Garbage, Authorised, ChainHolds, Pruned, RootsHold, ChainOf;
    AdmissibleRoots(env, s, req);
    AuthorisedIsKept(env, s, req, h, namespace, target, depth);
    KeptSame(env, s, req, ChainOf(s.generations, target, depth));
    ChainHoldsSame(env, Pruned(s, req), s, namespace, target, depth, maxBytes);
  }

  lemma DirectSame(env: Env, t: Store, s: Store, namespace: Namespace, a: Authority, direct: set<Digest>)
    requires forall d :: d in direct ==> SameRecord(t, s, d)
    ensures DirectsHold(env, t, namespace, a, direct) <==> DirectsHold(env, s, namespace, a, direct)
    ensures DirectBytes(env, t, direct) == DirectBytes(env, s, direct)
  {
    forall d | d in direct ensures DirectHolds(env, t, namespace, a, d) <==> DirectHolds(env, s, namespace, a, d) {
      assert SameRecord(t, s, d);
    }
    SumOverAgrees(direct, d => DirectCost(env, t, d), d => DirectCost(env, s, d));
  }

  /** The inventory is all kept, and is the same after a prune as before. */
  lemma PruneInvisibleToInventory(env: Env, s: Store, req: Request, h: Head, namespace: Namespace, maxGenerations: nat, maxBytes: nat)
    requires Admissible(env, s, req) && h in s.catalog && h.generation in s.generations
    ensures InventoryOf(s, h.generation) <= KeptOf(s, req).generations
    ensures h.generation in Pruned(s, req).generations && InventoryOf(Pruned(s, req), h.generation) == InventoryOf(s, h.generation)
    ensures InventoryHolds(env, Pruned(s, req), namespace, h.generation, maxGenerations, maxBytes)
      <==> InventoryHolds(env, s, namespace, h.generation, maxGenerations, maxBytes)
  {
    hide Admissible, KeptOf, Garbage, ChainHolds, Pruned, RootsHold, ChainOf, ChainCost, DirectsHold, DirectBytes, Named;
    var t, head := Pruned(s, req), h.generation;
    var a, chain := s.generations[head].authority, HistoryOf(s, head);
    AdmissibleRoots(env, s, req);
    HistoryKept(env, s, req, h);
    KeptSame(env, s, req, chain);
    ChainLength(s.generations, head, a.history);
    assert head in chain && SameRecord(t, s, head);
    ChainSame(t, s, head, a.history);
    ChainHoldsSame(env, t, s, namespace, head, a.history, maxBytes);
    forall d | d in Named(a) ensures SameRecord(t, s, d) && d in KeptOf(s, req).generations {
      NamedKept(env, s, req, h, d);
      assert d in [d];
      KeptSame(env, s, req, [d]);
    }
    DirectSame(env, t, s, namespace, a, Named(a) - Members(chain));
  }
}
