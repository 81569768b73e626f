/** Small stores used as examples: nothing recorded but a plan, and an environment in which every entry is
    in shape. */
module Witnesses {
  import opened Base
  import opened Graphs
  import opened Canonical
  import opened Names
  import opened TreeClosure
  import opened Loader
  import opened Store
  import opened RemovalOrder
  import opened Retention

  const NOTHING_CHECKED := Env(_ => 0, {}, {}, false, (_, _) => true, _ => true, _ => true)

  lemma NoClosure()
    ensures ClosureOf(map[], Marks({}, {}, {})) == Marks({}, {}, {})
  {
    var x := ClosureOf(map[], Marks({}, {}, {}));
    assert x.files == {} && x.symlinks == {} && x.trees == {};
  }

  lemma EmptyLoad(env: Env, s: Store)
    requires s.objects == NO_OBJECTS && env.sizes == NOTHING_CHECKED.sizes
    ensures Loads(env, s, {}, {}) && LoadItems(s, {}, {}) == 0 && LoadBytes(env, s, {}, {}) == 0
  {
    NoClosure();
    NothingWeighs({});
    assert MarkNames(Marks({}, {}, {})) == {};
    assert Marks({}, {}, {}) == ClosureOf(s.objects.trees, Marks({}, {}, {}));
  }

  lemma {:induction false} NothingWeighs(names: set<Name>)
    ensures SumOver(names, NOTHING_CHECKED.sizes) == 0
  {
    if names != {} {
      var n :| n in names;
      SumOverRemove(names, NOTHING_CHECKED.sizes, n);
      NothingWeighs(names - {n});
    }
  }

  lemma NoHistory(gens: Generations, s: Store)
    requires gens == map[]
    ensures var roots := Roots({}, {}, {});
      Reachable(gens, roots) == {} && NeededPlans(s, roots, {}) == {} && GenerationRoots(roots) == {}
    ensures Acyclic(PredecessorEdge(gens, gens.Keys - {}))
  {
    RankedIsAcyclic(PredecessorEdge(gens, gens.Keys - {}), _ => 0);
  }

  const FIRST: Digest := Digest([1])
  const SECOND: Digest := Digest([2])
}
