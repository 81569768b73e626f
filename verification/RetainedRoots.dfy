/** The mark phase of a prune as it runs: roots are collected from the heads and the plans, lineages are
    walked, and what they lead to is added to the closure. */
module RetainedRoots {
  import opened Base
  import opened Graphs
  import opened Canonical
  import opened Store
  import opened Retention

  const NO_ROOTS := Roots({}, {}, {})

  ghost function WithPoint(roots: Roots, p: RestorePoint): Roots { roots.(points := roots.points + {p}) }
  ghost function WithPin(roots: Roots, p: Pin): Roots { roots.(pins := roots.pins + {p}) }
  ghost function WithHistory(roots: Roots, h: (Digest, nat)): Roots { roots.(histories := roots.histories + {h}) }

  ghost function WithAll(roots: Roots, points: set<RestorePoint>, pins: set<Pin>): Roots {
    roots.(points := roots.points + points, pins := roots.pins + pins)
  }

  lemma SetOfAppend<T>(s: seq<T>, x: T)
    ensures SetOf(s + [x]) == SetOf(s) + {x}
  {
    assert x in s + [x];
  }

  lemma TakeOne<T>(s: seq<T>, n: nat)
    requires n < |s|
    ensures SetOf(s[..n + 1]) == SetOf(s[..n]) + {s[n]}
  {
    assert s[..n + 1] == s[..n] + [s[n]];
    SetOfAppend(s[..n], s[n]);
  }

  lemma PointAdded(roots: Roots, p: RestorePoint)
    ensures var r := WithPoint(roots, p);
      GenerationRoots(r) == GenerationRoots(roots) + {(p.generation, 1)} && r.pins == roots.pins
  {
  }

  lemma HistoryAdded(roots: Roots, h: (Digest, nat))
    ensures var r := WithHistory(roots, h);
      GenerationRoots(r) == GenerationRoots(roots) + {h} && r.pins == roots.pins
  {
  }

  lemma GenerationPinAdded(roots: Roots, p: Pin)
    ensures GenerationRoots(WithPin(roots, p)) == GenerationRoots(roots) + if p.PinGeneration? then {(p.digest, 1)} else {}
  {
    hide PinnedMarks;
    var r := WithPin(roots, p);
    assert (set q | q in r.pins && q.PinGeneration? :: (q.digest, 1))
        == (set q | q in roots.pins && q.PinGeneration? :: (q.digest, 1)) + if p.PinGeneration? then {(p.digest, 1)} else {};
  }

  lemma ObjectPinAdded(roots: Roots, p: Pin)
    ensures var r := WithPin(roots, p);
      && PinnedPlans(r) == PinnedPlans(roots) + (if p.PinPlan? then {p.plan} else {})
      && PinnedBlobs(r) == PinnedBlobs(roots) + (if p.PinBlob? then {p.digest} else {})
      && PinnedPacks(r) == PinnedPacks(roots) + (if p.PinPack? then {p.digest} else {})
  {
  }

  lemma MarkPinAdded(roots: Roots, p: Pin)
    ensures var a, b := PinnedMarks(roots), PinnedMarks(WithPin(roots, p));
      && b.files == a.files + (if p.PinFile? then {p.digest} else {})
      && b.symlinks == a.symlinks + (if p.PinSymlink? then {p.digest} else {})
      && b.trees == a.trees + (if p.PinTree? then {p.digest} else {})
  {
  }

  /** What a prune has found to be retained so far. */
  class RetainedClosure {
    var generationRoots: seq<(Digest, nat)>
    var planIds: set<PlanId>
    var blobs: set<Digest>
    var packs: set<Digest>
    var pinnedFiles: set<Digest>
    var pinnedSymlinks: set<Digest>
    var pinnedTrees: set<Digest>

    constructor ()
      ensures Collected(NO_ROOTS)
    {
      generationRoots, planIds, blobs, packs, pinnedFiles, pinnedSymlinks, pinnedTrees := [], {}, {}, {}, {}, {}, {};
    }

    ghost predicate PinsCollected(roots: Roots)
      reads this
    {
      && planIds == PinnedPlans(roots) && blobs == PinnedBlobs(roots) && packs == PinnedPacks(roots)
      && Marks(pinnedFiles, pinnedSymlinks, pinnedTrees) == PinnedMarks(roots)
    }

    /** The closure holds exactly these roots. */
    ghost predicate Collected(roots: Roots)
      reads this
    {
      SetOf(generationRoots) == GenerationRoots(roots) && PinsCollected(roots)
    }

    method AddHistory(root: Digest, limit: nat, ghost roots: Roots)
      requires Collected(roots)
      modifies this`generationRoots
      ensures Collected(WithHistory(roots, (root, limit)))
    {
      SetOfAppend(generationRoots, (root, limit));
      HistoryAdded(roots, (root, limit));
      generationRoots := generationRoots + [(root, limit)];
    }

    /** Refuses a restore point whose generation is missing or differs from what the point describes. */
    method CollectRestorePointRoot(point: RestorePoint, generations: Generations, ghost roots: Roots) returns (ok: bool)
      requires Collected(roots)
      modifies this`generationRoots
      ensures ok <==> PointsHold(generations, {point})
      ensures ok ==> Collected(WithPoint(roots, point))
    {
      if point.generation !in generations || !PointMatches(point, point.generation, generations[point.generation]) {
        assert point in {point};
        return false;
      }
      SetOfAppend(generationRoots, (point.generation, 1));
      PointAdded(roots, point);
      generationRoots := generationRoots + [(point.generation, 1)];
      ok := true;
    }

    method CollectPin(pin: Pin, ghost roots: Roots)
      requires Collected(roots)
      modifies this
      ensures Collected(WithPin(roots, pin))
    {
      hide PinnedPlans, PinnedBlobs, PinnedPacks, PinnedMarks, GenerationRoots;
      GenerationPinAdded(roots, pin);
      ObjectPinAdded(roots, pin);
      MarkPinAdded(roots, pin);
      match pin {
        case PinPlan(plan) => planIds := planIds + {plan};
        case PinGeneration(digest) =>
          SetOfAppend(generationRoots, (digest, 1));
          generationRoots := generationRoots + [(digest, 1)];
        case PinBlob(digest) => blobs := blobs + {digest};
        case PinPack(digest) => packs := packs + {digest};
        case PinFile(digest) => pinnedFiles := pinnedFiles + {digest};
        case PinSymlink(digest) => pinnedSymlinks := pinnedSymlinks + {digest};
        case PinTree(digest) => pinnedTrees := pinnedTrees + {digest};
      }
    }

    method CollectPins(pins: seq<Pin>, ghost roots: Roots)
      requires Collected(roots)
      modifies this
      ensures Collected(WithAll(roots, {}, SetOf(pins)))
    {
      hide Collected;
      assert pins[..0] == [] && WithAll(roots, {}, SetOf(pins[..0])) == roots;
      for n := 0 to |pins|
        invariant Collected(WithAll(roots, {}, SetOf(pins[..n])))
      {
        TakeOne(pins, n);
        ghost var before := WithAll(roots, {}, SetOf(pins[..n]));
        assert WithPin(before, pins[n]) == WithAll(roots, {}, SetOf(pins[..n + 1]));
        CollectPin(pins[n], before);
      }
      assert pins[..|pins|] == pins;
    }

    method CollectPoints(points: seq<RestorePoint>, generations: Generations, ghost roots: Roots) returns (ok: bool)
      requires Collected(roots)
      modifies this`generationRoots
      ensures ok <==> PointsHold(generations, SetOf(points))
      ensures ok ==> Collected(WithAll(roots, SetOf(points), {}))
    {
      hide Collected;
      assert points[..0] == [] && WithAll(roots, SetOf(points[..0]), {}) == roots;
      for n := 0 to |points|
        invariant PointsHold(generations, SetOf(points[..n]))
        invariant Collected(WithAll(roots, SetOf(points[..n]), {}))
      {
        TakeOne(points, n);
        ghost var before := WithAll(roots, SetOf(points[..n]), {});
        assert WithPoint(before, points[n]) == WithAll(roots, SetOf(points[..n + 1]), {});
        assert points[n] in points;
        var one := CollectRestorePointRoot(points[n], generations, before);
        if !one {
          assert exists p :: p in {points[n]} && (p.generation !in generations || !PointMatches(p, p.generation, generations[p.generation]));
          return false;
        }
      }
      assert points[..|points|] == points;
      ok := true;
    }

    /** Everything that one head or plan claims: its own restore point, and its retention authority. */
    method CollectClaims(point: Option<RestorePoint>, a: Authority, generations: Generations, ghost roots: Roots) returns (ok: bool)
      requires Collected(roots)
      modifies this
      ensures ok <==> PointsHold(generations, PointsOf(point, a))
      ensures ok ==> Collected(WithAll(roots, PointsOf(point, a), SetOf(a.pins)))
    {
      hide Collected;
      ghost var now := roots;
      if point.Some? {
        ok := CollectRestorePointRoot(point.value, generations, now);
        if !ok {
          assert point.value in PointsOf(point, a);
          assert exists p :: p in {point.value} && (p.generation !in generations || !PointMatches(p, p.generation, generations[p.generation]));
          return;
        }
        now := WithPoint(now, point.value);
      }
      ok := CollectPoints(a.restorePoints, generations, now);
      if !ok {
        assert SetOf(a.restorePoints) <= PointsOf(point, a);
        return;
      }
      now := WithAll(now, SetOf(a.restorePoints), {});
      CollectPins(a.pins, now);
      assert WithAll(now, {}, SetOf(a.pins)) == WithAll(roots, PointsOf(point, a), SetOf(a.pins));
    }
  }

  // ----- Roots of all heads and all chosen plans

  ghost function HeadRoots(s: Store, heads: seq<Head>): Roots {
    Roots(
      (set h | h in heads && h.generation in s.generations :: (h.generation, s.generations[h.generation].authority.history as nat)),
      (set h, p | h in heads && h.generation in s.generations
         && p in PointsOf(s.generations[h.generation].restorePoint, s.generations[h.generation].authority) :: p),
      (set h, p | h in heads && h.generation in s.generations && p in s.generations[h.generation].authority.pins :: p))
  }

  ghost function PlanRoots(s: Store, plans: set<PlanId>): Roots {
    Roots({},
      (set q, p | q in plans && q in s.plans && p in PointsOf(s.plans[q].restorePoint, s.plans[q].authority) :: p),
      (set q, p | q in plans && q in s.plans && p in s.plans[q].authority.pins :: p))
  }

  ghost function JoinRoots(a: Roots, b: Roots): Roots { Roots(a.histories + b.histories, a.points + b.points, a.pins + b.pins) }

  lemma RootsSplit(s: Store, chosen: set<PlanId>)
    ensures RootsOf(s, chosen) == JoinRoots(HeadRoots(s, s.catalog), PlanRoots(s, chosen))
  {
    hide PointsOf;
    var a, b := RootsOf(s, chosen), JoinRoots(HeadRoots(s, s.catalog), PlanRoots(s, chosen));
    assert a.histories == b.histories;
    assert a.points == b.points;
    assert a.pins == b.pins;
  }

  lemma HeadRootsAdd(s: Store, heads: seq<Head>, n: nat)
    requires n < |heads| && heads[n].generation in s.generations
    ensures var g := s.generations[heads[n].generation];
      HeadRoots(s, heads[..n + 1])
        == WithAll(WithHistory(HeadRoots(s, heads[..n]), (heads[n].generation, g.authority.history as nat)), PointsOf(g.restorePoint, g.authority), SetOf(g.authority.pins))
  {
    hide PointsOf;
    var few, many := heads[..n], heads[..n + 1];
    assert many == few + [heads[n]];
    assert forall h :: h in many <==> h in few || h == heads[n];
    var a, b := HeadRoots(s, few), HeadRoots(s, many);
    var g := s.generations[heads[n].generation];
    assert b.histories == a.histories + {(heads[n].generation, g.authority.history as nat)};
    assert b.points == a.points + PointsOf(g.restorePoint, g.authority);
    assert b.pins == a.pins + SetOf(g.authority.pins);
  }

  lemma PlanRootsAdd(s: Store, roots: Roots, done: set<PlanId>, q: PlanId)
    requires q in s.plans
    ensures PlanRoots(s, done + {q}).points == PlanRoots(s, done).points + PointsOf(s.plans[q].restorePoint, s.plans[q].authority)
    ensures var p := s.plans[q];
      JoinRoots(roots, PlanRoots(s, done + {q})) == WithAll(JoinRoots(roots, PlanRoots(s, done)), PointsOf(p.restorePoint, p.authority), SetOf(p.authority.pins))
  {
    hide PointsOf;
    var p, a, b := s.plans[q], PlanRoots(s, done), PlanRoots(s, done + {q});
    assert b.points == a.points + PointsOf(p.restorePoint, p.authority);
    assert b.pins == a.pins + SetOf(p.authority.pins);
  }

  lemma PointsBelow(gens: Generations, few: set<RestorePoint>, many: set<RestorePoint>)
    requires few <= many
    ensures PointsHold(gens, many) ==> PointsHold(gens, few)
  {
  }

  lemma PointsUnion(gens: Generations, a: set<RestorePoint>, b: set<RestorePoint>)
    ensures PointsHold(gens, a + b) <==> PointsHold(gens, a) && PointsHold(gens, b)
  {
    if PointsHold(gens, a + b) {
      PointsBelow(gens, a, a + b);
      PointsBelow(gens, b, a + b);
    }
  }

  method CollectHeads(s: Store, retained: RetainedClosure) returns (ok: bool)
    requires retained.Collected(NO_ROOTS) && forall h :: h in s.catalog ==> h.generation in s.generations
    modifies retained
    ensures ok <==> PointsHold(s.generations, HeadRoots(s, s.catalog).points)
    ensures ok ==> retained.Collected(HeadRoots(s, s.catalog))
  {
    hide PointsOf, PointsHold, GenerationRoots, PinnedPlans, PinnedBlobs, PinnedPacks, PinnedMarks;
    var heads := s.catalog;
    NoHeads(s, heads);
    for n := 0 to |heads|
      invariant PointsHold(s.generations, HeadRoots(s, heads[..n]).points)
      invariant retained.Collected(HeadRoots(s, heads[..n]))
    {
      var head := heads[n];
      assert head in heads;
      var g := s.generations[head.generation];
      HeadRootsAdd(s, heads, n);
      ghost var before := HeadRoots(s, heads[..n]);
      retained.AddHistory(head.generation, g.authority.history, before);
      var one := retained.CollectClaims(g.restorePoint, g.authority, s.generations, WithHistory(before, (head.generation, g.authority.history as nat)));
      PointsUnion(s.generations, before.points, PointsOf(g.restorePoint, g.authority));
      if !one {
        MorePoints(s, heads, n + 1);
        return false;
      }
    }
    assert heads[..|heads|] == heads;
    ok := true;
  }

  lemma NoHeads(s: Store, heads: seq<Head>)
    ensures HeadRoots(s, heads[..0]) == NO_ROOTS && PointsHold(s.generations, {})
  {
    hide PointsOf;
    assert heads[..0] == [];
    var a := HeadRoots(s, []);
    assert a.histories == {} && a.points == {} && a.pins == {};
  }

  lemma MorePoints(s: Store, heads: seq<Head>, n: nat)
    requires n <= |heads| && !PointsHold(s.generations, HeadRoots(s, heads[..n]).points)
    ensures !PointsHold(s.generations, HeadRoots(s, heads).points)
  {
    hide PointsOf, PointsHold;
    assert forall h :: h in heads[..n] ==> h in heads;
    PointsBelow(s.generations, HeadRoots(s, heads[..n]).points, HeadRoots(s, heads).points);
  }

  method CollectPlans(s: Store, chosen: set<PlanId>, retained: RetainedClosure, ghost roots: Roots) returns (ok: bool)
    requires chosen <= s.plans.Keys && retained.Collected(roots)
    modifies retained
    ensures ok <==> PointsHold(s.generations, PlanRoots(s, chosen).points)
    ensures ok ==> retained.Collected(JoinRoots(roots, PlanRoots(s, chosen)))
  {
    hide PointsOf, PointsHold, GenerationRoots, PinnedPlans, PinnedBlobs, PinnedPacks, PinnedMarks;
    var done: set<PlanId> := {};
    NoPlans(s, roots);
    while done != chosen
      invariant done <= chosen && PointsHold(s.generations, PlanRoots(s, done).points)
      invariant retained.Collected(JoinRoots(roots, PlanRoots(s, done)))
      decreases chosen - done
    {
      assert !(chosen <= done);
      var q :| q in chosen && q !in done;
      var p := s.plans[q];
      PlanRootsAdd(s, roots, done, q);
      var one := retained.CollectClaims(p.restorePoint, p.authority, s.generations, JoinRoots(roots, PlanRoots(s, done)));
      PointsUnion(s.generations, PlanRoots(s, done).points, PointsOf(p.restorePoint, p.authority));
      if !one {
        PointsBelow(s.generations, PlanRoots(s, done + {q}).points, PlanRoots(s, chosen).points);
        return false;
      }
      done := done + {q};
    }
    ok := true;
  }

  lemma NoPlans(s: Store, roots: Roots)
    ensures JoinRoots(roots, PlanRoots(s, {})) == roots && PointsHold(s.generations, PlanRoots(s, {}).points)
  {
    assert PlanRoots(s, {}) == NO_ROOTS;
  }

  /** All roots.  Fails exactly when some restore point does not hold. */
  method CollectRoots(s: Store, chosen: set<PlanId>) returns (ok: bool, retained: RetainedClosure)
    requires chosen <= s.plans.Keys && forall h :: h in s.catalog ==> h.generation in s.generations
    ensures fresh(retained)
    ensures ok <==> PointsHold(s.generations, RootsOf(s, chosen).points)
    ensures ok ==> retained.Collected(RootsOf(s, chosen))
  {
    hide RootsOf, HeadRoots, PlanRoots, PointsHold, GenerationRoots, PinnedPlans, PinnedBlobs, PinnedPacks, PinnedMarks;
    retained := new RetainedClosure();
    RootsSplit(s, chosen);
    PointsUnion(s.generations, HeadRoots(s, s.catalog).points, PlanRoots(s, chosen).points);
    ok := CollectHeads(s, retained);
    if ok {
      ok := CollectPlans(s, chosen, retained, HeadRoots(s, s.catalog));
    }
  }

  // ----- Lineages

  lemma {:induction false} AncestorGap(gens: Generations, d: Digest, m: nat, n: nat)
    requires m <= n && Ancestor(gens, d, m).None?
    ensures Ancestor(gens, d, n).None?
  {
    if m < n {
      AncestorGap(gens, d, m, n - 1);
    }
  }

  ghost predicate Passed(gens: Generations, root: (Digest, nat), lineage: set<Digest>, n: nat) {
    && (forall i :: 0 <= i < n ==> Ancestor(gens, root.0, i).Some? && Ancestor(gens, root.0, i).value in gens && Ancestor(gens, root.0, i).value in lineage)
    && (forall i, j :: 0 <= i < j < n ==> Ancestor(gens, root.0, i) != Ancestor(gens, root.0, j))
    && (forall d :: d in lineage ==> exists i :: 0 <= i < n && Ancestor(gens, root.0, i) == Some(d))
  }

  ghost function BehindRoot(gens: Generations, root: (Digest, nat)): set<Digest> { set d | d in gens && Within(gens, root, d) }

  lemma PassedStep(gens: Generations, root: (Digest, nat), lineage: set<Digest>, n: nat, d: Digest)
    requires Passed(gens, root, lineage, n) && Ancestor(gens, root.0, n) == Some(d) && d in gens && d !in lineage
    ensures Passed(gens, root, lineage + {d}, n + 1) && Ancestor(gens, root.0, n + 1) == gens[d].previous
  {
  }

  lemma PassedAll(gens: Generations, root: (Digest, nat), lineage: set<Digest>, n: nat)
    requires Passed(gens, root, lineage, n) && n <= root.1 && (n == root.1 || Ancestor(gens, root.0, n).None?)
    ensures LineageHolds(gens, root) && lineage == BehindRoot(gens, root)
  {
    forall i | n <= i < root.1 ensures Ancestor(gens, root.0, i).None? {
      AncestorGap(gens, root.0, n, i);
    }
  }

  /** Follows one lineage as far as its limit goes. */
  method WalkLineage(gens: Generations, root: (Digest, nat)) returns (ok: bool, lineage: set<Digest>)
    ensures ok <==> LineageHolds(gens, root)
    ensures ok ==> lineage == BehindRoot(gens, root)
  {
    hide Passed, Ancestor;
    var current, n := Some(root.0), 0;
    lineage := {};
    LineageStart(gens, root);
    while n < root.1 && current.Some?
      invariant n <= root.1 && Passed(gens, root, lineage, n) && current == Ancestor(gens, root.0, n)
      decreases root.1 - n
    {
      var d := current.value;
      if d in lineage || d !in gens {
        LineageBroken(gens, root, lineage, n, d);
        return false, lineage;
      }
      PassedStep(gens, root, lineage, n, d);
      lineage, current, n := lineage + {d}, gens[d].previous, n + 1;
    }
    PassedAll(gens, root, lineage, n);
    ok := true;
  }

  lemma LineageStart(gens: Generations, root: (Digest, nat))
    ensures Passed(gens, root, {}, 0) && Ancestor(gens, root.0, 0) == Some(root.0)
  {
  }

  lemma LineageBroken(gens: Generations, root: (Digest, nat), lineage: set<Digest>, n: nat, d: Digest)
    requires Passed(gens, root, lineage, n) && n < root.1 && Ancestor(gens, root.0, n) == Some(d) && (d in lineage || d !in gens)
    ensures !LineageHolds(gens, root)
  {
    if d in gens {
      var i :| 0 <= i < n && Ancestor(gens, root.0, i) == Some(d);
      assert Ancestor(gens, root.0, i) == Ancestor(gens, root.0, n);
    }
  }

  ghost function ReachedFrom(gens: Generations, roots: seq<(Digest, nat)>): set<Digest> {
    set d | d in gens && exists root :: root in roots && Within(gens, root, d)
  }

  lemma ReachedMore(gens: Generations, roots: seq<(Digest, nat)>, n: nat)
    requires n < |roots|
    ensures ReachedFrom(gens, roots[..n + 1]) == ReachedFrom(gens, roots[..n]) + BehindRoot(gens, roots[n])
  {
    hide Within;
    assert roots[..n + 1] == roots[..n] + [roots[n]];
  }

  /** All generations that the collected roots reach.  Fails exactly when a lineage is broken. */
  method ReachGenerations(gens: Generations, roots: seq<(Digest, nat)>, ghost spec: Roots) returns (ok: bool, reach: set<Digest>)
    requires SetOf(roots) == GenerationRoots(spec)
    ensures ok <==> LineagesHold(gens, GenerationRoots(spec))
    ensures ok ==> reach == Reachable(gens, spec)
  {
    hide GenerationRoots, LineageHolds, Within;
    reach := {};
    assert roots[..0] == [];
    for n := 0 to |roots|
      invariant reach == ReachedFrom(gens, roots[..n])
      invariant forall i :: 0 <= i < n ==> LineageHolds(gens, roots[i])
    {
      assert roots[n] in SetOf(roots);
      var one, lineage := WalkLineage(gens, roots[n]);
      if !one {
        return false, reach;
      }
      ReachedMore(gens, roots, n);
      reach := reach + lineage;
    }
    assert roots[..|roots|] == roots;
    AllReached(gens, roots, spec);
    ok := true;
  }

  lemma AllReached(gens: Generations, roots: seq<(Digest, nat)>, spec: Roots)
    requires SetOf(roots) == GenerationRoots(spec)
    ensures ReachedFrom(gens, roots) == Reachable(gens, spec)
    ensures (forall i :: 0 <= i < |roots| ==> LineageHolds(gens, roots[i])) ==> LineagesHold(gens, GenerationRoots(spec))
  {
    hide GenerationRoots, LineageHolds, Within;
    forall d | d in gens ensures (exists root :: root in roots && Within(gens, root, d)) <==> Reached(gens, spec, d) {
      if Reached(gens, spec, d) {
        var root :| root in GenerationRoots(spec) && Within(gens, root, d);
        assert root in SetOf(roots);
      }
      if root :| root in roots && Within(gens, root, d) {
        assert root in SetOf(roots);
      }
    }
    forall root | root in GenerationRoots(spec) ensures exists i :: 0 <= i < |roots| && roots[i] == root {
      assert root in SetOf(roots);
    }
  }
}
