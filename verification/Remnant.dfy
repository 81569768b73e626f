/** A store of which a part has been removed while everything kept is still there: what can be computed
    from it, compared with the store it came from. */
module Remnant {
  import opened Base
  import opened Text
  import opened Canonical
  import opened Names
  import opened TreeGraph
  import opened TreeClosure
  import opened Loader
  import opened Store
  import opened Retention
  import opened RetentionClosure

  // ----- Remnants

  ghost predicate ObjectsPart(t: CanonicalObjects, s: CanonicalObjects) {
    && (forall d :: d in t.files ==> d in s.files && t.files[d] == s.files[d])
    && (forall d :: d in t.symlinks ==> d in s.symlinks && t.symlinks[d] == s.symlinks[d])
    && (forall d :: d in t.trees ==> d in s.trees && t.trees[d] == s.trees[d])
  }

  ghost predicate RecordsPart(t: Store, s: Store) {
    && (forall d :: d in t.generations ==> d in s.generations && t.generations[d] == s.generations[d])
    && (forall d :: d in t.plans ==> d in s.plans && t.plans[d] == s.plans[d])
  }

  /** `t` is what is left of `s`. */
  ghost predicate Part(t: Store, s: Store) {
    && t.catalog == s.catalog && RecordsPart(t, s)
    && t.blobs <= s.blobs && t.packs <= s.packs
    && (forall d :: d in t.manifests ==> d in s.manifests && t.manifests[d] == s.manifests[d])
    && ObjectsPart(t.objects, s.objects)
  }

  ghost predicate ObjectsPreserved(t: CanonicalObjects, s: CanonicalObjects, x: Marks) {
    && (forall d :: d in x.files && d in s.files ==> d in t.files)
    && (forall d :: d in x.symlinks && d in s.symlinks ==> d in t.symlinks)
    && (forall d :: d in x.trees && d in s.trees ==> d in t.trees)
  }

  /** Nothing of `k` has been lost. */
  ghost predicate Preserved(t: Store, s: Store, k: Kept) {
    && (forall d :: d in k.generations && d in s.generations ==> d in t.generations)
    && (forall d :: d in k.plans && d in s.plans ==> d in t.plans)
    && (forall d :: d in k.blobs && d in s.blobs ==> d in t.blobs)
    && (forall d :: d in k.packs && d in s.packs ==> d in t.packs)
    && (forall d :: d in k.packs && d in s.manifests ==> d in t.manifests)
    && ObjectsPreserved(t.objects, s.objects, k.marks)
  }

  lemma WithoutIsPart(s: Store, r: set<Name>, k: Kept)
    requires r !! KeptNames(k)
    ensures Part(Without(s, r), s) && Preserved(Without(s, r), s, k)
  {
  }

  // ----- Roots

  ghost predicate RootsWithin(a: Roots, b: Roots) {
    a.histories <= b.histories && a.points <= b.points && a.pins <= b.pins
  }

  lemma RootsShrink(t: Store, s: Store, few: set<PlanId>, many: set<PlanId>)
    requires Part(t, s) && few <= many
    requires forall h :: h in s.catalog && h.generation in s.generations ==> h.generation in t.generations
    ensures RootsWithin(RootsOf(t, few), RootsOf(s, many)) && RootsOf(t, few).histories == RootsOf(s, many).histories
    ensures few == many && many <= t.plans.Keys ==> RootsOf(t, few) == RootsOf(s, many)
  {
    hide PointsOf;
    assert HeadRecords(t) == HeadRecords(s);
    assert PlanRecords(t, few) <= PlanRecords(s, many);
    if few == many && many <= t.plans.Keys {
      assert PlanRecords(t, few) == PlanRecords(s, many);
    }
  }

  lemma DerivedRootsWithin(a: Roots, b: Roots)
    requires RootsWithin(a, b)
    ensures GenerationRoots(a) <= GenerationRoots(b)
    ensures PinnedPlans(a) <= PinnedPlans(b) && PinnedBlobs(a) <= PinnedBlobs(b) && PinnedPacks(a) <= PinnedPacks(b)
    ensures MarksWithin(PinnedMarks(a), PinnedMarks(b))
  {
  }

  // ----- History

  /** Along a lineage whose members are all still there, nothing has changed. */
  lemma {:induction false} AncestorsAgree(t: Generations, s: Generations, root: (Digest, nat), n: nat)
    requires forall d :: d in t ==> d in s && t[d] == s[d]
    requires forall d :: d in s && Within(s, root, d) ==> d in t
    requires n <= root.1
    ensures Ancestor(t, root.0, n) == Ancestor(s, root.0, n)
  {
    if n > 0 {
      AncestorsAgree(t, s, root, n - 1);
      var child := Ancestor(s, root.0, n - 1);
      if child.Some? && child.value in s {
        assert Within(s, root, child.value);
      }
    }
  }

  lemma LineageAgrees(t: Generations, s: Generations, root: (Digest, nat))
    requires forall d :: d in t ==> d in s && t[d] == s[d]
    requires forall d :: d in s && Within(s, root, d) ==> d in t
    ensures LineageHolds(s, root) ==> LineageHolds(t, root)
    ensures forall d :: Within(t, root, d) <==> Within(s, root, d)
  {
    forall n | 0 <= n < root.1 ensures Ancestor(t, root.0, n) == Ancestor(s, root.0, n) {
      AncestorsAgree(t, s, root, n);
    }
    if LineageHolds(s, root) {
      forall n | 0 <= n < root.1 && Ancestor(t, root.0, n).Some? ensures Ancestor(t, root.0, n).value in t {
        assert Within(s, root, Ancestor(s, root.0, n).value);
      }
    }
  }

  lemma ReachShrinks(t: Generations, s: Generations, few: Roots, many: Roots)
    requires forall d :: d in t ==> d in s && t[d] == s[d]
    requires RootsWithin(few, many) && Reachable(s, many) <= t.Keys
    ensures Reachable(t, few) == Reachable(s, few) <= Reachable(s, many)
    ensures LineagesHold(s, GenerationRoots(many)) ==> LineagesHold(t, GenerationRoots(few))
  {
    hide GenerationRoots, Within, LineageHolds;
    DerivedRootsWithin(few, many);
    forall root | root in GenerationRoots(few)
      ensures LineageHolds(s, root) ==> LineageHolds(t, root)
      ensures forall d :: Within(t, root, d) <==> Within(s, root, d)
      ensures forall d :: d in s && Within(s, root, d) ==> d in t
    {
      forall d | d in s && Within(s, root, d) ensures d in t {
        assert Reached(s, many, d);
      }
      LineageAgrees(t, s, root);
    }
    forall d ensures d in t && Reached(t, few, d) <==> d in s && Reached(s, few, d) {
    }
    forall d | d in s && Reached(s, few, d) ensures Reached(s, many, d) {
    }
  }

  // ----- Records and closures

  lemma RecordsAgree(t: Store, s: Store, reach: set<Digest>, plans: set<PlanId>)
    requires RecordsPart(t, s) && reach <= t.generations.Keys && plans <= t.plans.Keys
    ensures GenerationRecords(t, reach) == GenerationRecords(s, reach) && PlanRecords(t, plans) == PlanRecords(s, plans)
    ensures StateTrees(t, reach, plans) == StateTrees(s, reach, plans) && StateLinks(t, reach, plans) == StateLinks(s, reach, plans)
  {
    hide TreeRoots, LinkRoots;
    assert GenerationRecords(t, reach) == GenerationRecords(s, reach) && PlanRecords(t, plans) == PlanRecords(s, plans);
  }

  lemma PreservedAgree(t: CanonicalObjects, s: CanonicalObjects, x: Marks)
    requires ObjectsPart(t, s) && ObjectsPreserved(t, s, x)
    ensures AgreeOn(s, t, x)
  {
  }

  /** Below roots whose whole closure is preserved, the closure has not changed. */
  lemma ClosureAgrees(t: CanonicalObjects, s: CanonicalObjects, x: Marks, roots: Marks)
    requires AgreeOn(s, t, x) && ClosedUnderChildren(s.trees, x) && MarksWithin(roots, x)
    ensures ClosureOf(t.trees, roots) == ClosureOf(s.trees, roots)
    ensures MarksWithin(ClosureOf(s.trees, roots), x)
    ensures forall r :: r in roots.trees ==> UnfoldTree(t.trees, r, [], 0) == UnfoldTree(s.trees, r, [], 0)
  {
    hide UnfoldTree, AgreeOn, ClosedUnderChildren, ClosureOf;
    forall r | r in roots.trees
      ensures UnfoldTree(t.trees, r, [], 0) == UnfoldTree(s.trees, r, [], 0)
      ensures forall v :: v in UnfoldTree(s.trees, r, [], 0) ==> Marked(x, v.entry.kind)
    {
      UnfoldTreeLocal(s, t, x, r);
    }
    SameUnfoldings(t.trees, s.trees, roots);
    UnfoldingsWithin(s.trees, x, roots);
  }

  lemma SameUnfoldings(few: Trees, many: Trees, roots: Marks)
    requires forall r :: r in roots.trees ==> UnfoldTree(few, r, [], 0) == UnfoldTree(many, r, [], 0)
    ensures ClosureOf(few, roots) == ClosureOf(many, roots)
  {
    hide UnfoldTree;
    var a, b := ClosureOf(few, roots), ClosureOf(many, roots);
    assert a.files == b.files;
    assert a.symlinks == b.symlinks;
    assert a.trees == b.trees;
  }

  lemma UnfoldingsWithin(trees: Trees, x: Marks, roots: Marks)
    requires MarksWithin(roots, x)
    requires forall r, v :: r in roots.trees && v in UnfoldTree(trees, r, [], 0) ==> Marked(x, v.entry.kind)
    ensures MarksWithin(ClosureOf(trees, roots), x)
  {
    hide UnfoldTree;
  }

  lemma ClosureMonotone(trees: Trees, few: Marks, many: Marks)
    requires MarksWithin(few, many)
    ensures MarksWithin(ClosureOf(trees, few), ClosureOf(trees, many))
  {
    hide UnfoldTree;
  }

  // ----- What is kept

  /** What part of `k` a smaller set of roots needs. */
  ghost predicate Inside(s: Store, k: Kept, roots: Roots, reach: set<Digest>, plans: set<PlanId>) {
    && reach <= k.generations && plans <= k.plans && PacksOf(s, roots, plans) <= k.packs
    && MarksWithin(Marks({}, StateLinks(s, reach, plans), StateTrees(s, reach, plans)), k.marks)
    && MarksWithin(PinnedMarks(roots), k.marks)
  }

  lemma KeptAgrees(t: Store, s: Store, k: Kept, roots: Roots, reach: set<Digest>, plans: set<PlanId>)
    requires Part(t, s) && Preserved(t, s, k) && ClosedUnderChildren(s.objects.trees, k.marks)
    requires Inside(s, k, roots, reach, plans) && reach <= s.generations.Keys && plans <= s.plans.Keys
    ensures KeptWith(t, roots, reach, plans) == KeptWith(s, roots, reach, plans)
  {
    hide ClosureOf, PinnedMarks, StateTrees, StateLinks, ClosedUnderChildren, PackRoots, ArtifactBlobs, GenerationBlobs, PinnedPacks, PinnedBlobs;
    RecordsAgree(t, s, reach, plans);
    PreservedAgree(t.objects, s.objects, k.marks);
    ClosureAgrees(t.objects, s.objects, k.marks, Marks({}, StateLinks(s, reach, plans), StateTrees(s, reach, plans)));
    ClosureAgrees(t.objects, s.objects, k.marks, PinnedMarks(roots));
    assert PacksOf(t, roots, plans) == PacksOf(s, roots, plans);
    assert BlobsOf(t, roots, reach, plans) == BlobsOf(s, roots, reach, plans);
    assert MemberBlobs(t, PacksOf(t, roots, plans)) == MemberBlobs(s, PacksOf(s, roots, plans));
  }

  lemma KeptMonotone(s: Store, few: Roots, many: Roots, r: set<Digest>, reach: set<Digest>, p: set<PlanId>, plans: set<PlanId>)
    requires RootsWithin(few, many) && r <= reach && p <= plans
    ensures KeptWithin(KeptWith(s, few, r, p), KeptWith(s, many, reach, plans))
    ensures StateTrees(s, r, p) <= StateTrees(s, reach, plans) && StateLinks(s, r, p) <= StateLinks(s, reach, plans)
    ensures MarksWithin(PinnedMarks(few), PinnedMarks(many))
  {
    hide ClosureOf, PinnedMarks, PinnedPacks, PinnedBlobs, TreeRoots, LinkRoots, PackRoots, ArtifactBlobs, GenerationBlobs;
    DerivedRootsWithin(few, many);
    assert GenerationRecords(s, r) <= GenerationRecords(s, reach) && PlanRecords(s, p) <= PlanRecords(s, plans);
    ClosureMonotone(s.objects.trees, PinnedMarks(few), PinnedMarks(many));
    ClosureMonotone(s.objects.trees, Marks({}, StateLinks(s, r, p), StateTrees(s, r, p)),
      Marks({}, StateLinks(s, reach, plans), StateTrees(s, reach, plans)));
  }

  lemma RootsInsideClosure(trees: Trees, roots: Marks)
    ensures MarksWithin(roots, ClosureOf(trees, roots))
  {
  }

  lemma KeptContainsRoots(s: Store, roots: Roots, reach: set<Digest>, plans: set<PlanId>)
    ensures Inside(s, KeptWith(s, roots, reach, plans), roots, reach, plans)
  {
    hide ClosureOf, PinnedMarks, StateTrees, StateLinks, PacksOf, BlobsOf, MemberBlobs;
    RootsInsideClosure(s.objects.trees, PinnedMarks(roots));
    RootsInsideClosure(s.objects.trees, Marks({}, StateLinks(s, reach, plans), StateTrees(s, reach, plans)));
  }
}
