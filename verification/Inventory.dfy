/** Which generations of a namespace may be inspected, one at a time and as a list, and why a prune leaves
    all of them alone. */
module Inventory {
  import opened Base
  import opened Graphs
  import opened Names
  import opened Store
  import opened Retention
  import opened Lineage

  const MAX_LINEAGE_VALIDATION_BYTES: nat := 512 * 1024 * 1024

  // ----- One generation

  /** The first restore point for a generation. */
  function FindPoint(points: seq<RestorePoint>, d: Digest): (r: Option<RestorePoint>)
    ensures r.Some? ==> r.value in points && r.value.generation == d
    ensures r.None? <==> forall p :: p in points ==> p.generation != d
  {
    if points == [] then None
    else if points[0].generation == d then Some(points[0])
    else FindPoint(points[1..], d)
  }

  predicate DirectlyNamed(a: Authority, d: Digest) { FindPoint(a.restorePoints, d).Some? || PinGeneration(d) in a.pins }

  predicate PointAgrees(s: Store, a: Authority, d: Digest)
    requires d in s.generations
  {
    var point := FindPoint(a.restorePoints, d);
    point.Some? ==> PointMatches(point.value, d, s.generations[d])
  }

  ghost predicate ReadableTo(env: Env, s: Store, namespace: Namespace, chain: seq<Digest>, n: nat) {
    forall j :: 0 <= j < n && j < |chain| ==> Lineage.ReadableIn(env, s, namespace, chain[j])
  }

  ghost function HistoryOf(s: Store, head: Digest): seq<Digest>
    requires head in s.generations
  {
    ChainOf(s.generations, head, s.generations[head].authority.history)
  }

  /** `target` is the `i`-th generation of the retained history, and the history is readable that far. */
  ghost predicate FoundAt(env: Env, s: Store, namespace: Namespace, chain: seq<Digest>, target: Digest, i: nat) {
    i < |chain| && chain[i] == target && target !in chain[..i] && ReadableTo(env, s, namespace, chain, i + 1)
  }

  /** The history does not list the target, but a restore point or a pin of the head names it. */
  ghost predicate NamedOnly(env: Env, s: Store, namespace: Namespace, chain: seq<Digest>, a: Authority, target: Digest) {
    && target !in chain && ReadableTo(env, s, namespace, chain, |chain|)
    && DirectlyNamed(a, target) && Lineage.ReadableIn(env, s, namespace, target) && PointAgrees(s, a, target)
  }

  /** What a caller is allowed to look at under the authority of `head`, and how deep its lineage may be read. */
  ghost predicate Authorised(env: Env, s: Store, namespace: Namespace, head: Digest, target: Digest, depth: nat)
    requires head in s.generations
  {
    var a := s.generations[head].authority;
    var chain := HistoryOf(s, head);
    && s.generations[head].namespace == namespace
    && ((exists i :: FoundAt(env, s, namespace, chain, target, i) && depth == a.history - i)
        || (NamedOnly(env, s, namespace, chain, a, target) && depth == 1))
  }

  lemma ChainStep(gens: Generations, start: Digest, limit: nat, i: nat)
    requires i < |ChainOf(gens, start, limit)|
    ensures i < limit
    ensures var chain := ChainOf(gens, start, limit);
      && chain[i..] == ChainOf(gens, chain[i], limit - i)
      && (i + 1 < |chain| <==> i + 1 < limit && chain[i] in gens && gens[chain[i]].previous.Some?)
      && (i + 1 < |chain| ==> chain[i + 1] == gens[chain[i]].previous.value)
  {
    ChainSplit(gens, start, limit, i);
    var d := ChainOf(gens, start, limit)[i];
    if d in gens && gens[d].previous.Some? {
      ChainLength(gens, gens[d].previous.value, limit - i - 1);
    }
  }

  /** Loads a generation that the head's history, restore points or pins retain, and nothing else. */
  method LoadEffectivelyRetained(env: Env, s: Store, namespace: Namespace, head: Digest, target: Digest)
    returns (r: Result<(Generation, nat), LineageError>)
    requires Stored(env, s, head)
    ensures r.Success? ==> Authorised(env, s, namespace, head, target, r.value.1) && r.value.0 == s.generations[target]
    ensures r.Failure? ==> forall depth :: !Authorised(env, s, namespace, head, target, depth)
  {
    hide ReadableTo, ChainOf;
    var current := s.generations[head];
    if current.namespace != namespace {
      return Failure(OtherNamespace);
    }
    var limit := current.authority.history;
    ghost var chain := HistoryOf(s, head);
    ChainLength(s.generations, head, limit);
    ReadableNone(env, s, namespace, chain);
    ReadableMore(env, s, namespace, chain, 0);
    var offset, d := 0, head;
    while true
      invariant offset < limit && offset < |chain| && chain[offset] == d && target !in chain[..offset]
      invariant ReadableTo(env, s, namespace, chain, offset + 1) && Lineage.ReadableIn(env, s, namespace, d)
      decreases limit - offset
    {
      ChainStep(s.generations, head, limit, offset);
      if d == target {
        assert FoundAt(env, s, namespace, chain, target, offset);
        return Success((s.generations[d], limit - offset));
      }
      assert chain[..offset + 1] == chain[..offset] + [d];
      if offset + 1 == limit || s.generations[d].previous.None? {
        break;
      }
      d := s.generations[d].previous.value;
      if !Lineage.ReadableIn(env, s, namespace, d) {
        HistoryUnreadable(env, s, namespace, head, target, offset + 1);
        return Failure(if Stored(env, s, d) then OtherNamespace else MissingRecord);
      }
      offset := offset + 1;
      ReadableMore(env, s, namespace, chain, offset);
    }
    assert chain == chain[..offset + 1];
    assert forall i :: !FoundAt(env, s, namespace, chain, target, i);
    if !DirectlyNamed(current.authority, target) {
      return Failure(NotRetained);
    }
    if !Lineage.ReadableIn(env, s, namespace, target) {
      return Failure(if Stored(env, s, target) then OtherNamespace else MissingRecord);
    }
    if !PointAgrees(s, current.authority, target) {
      return Failure(PointDiffers);
    }
    r := Success((s.generations[target], 1));
  }

  lemma ReadableNone(env: Env, s: Store, namespace: Namespace, chain: seq<Digest>)
    ensures ReadableTo(env, s, namespace, chain, 0)
  {
  }

  lemma ReadableMore(env: Env, s: Store, namespace: Namespace, chain: seq<Digest>, n: nat)
    requires n < |chain| && ReadableTo(env, s, namespace, chain, n) && Lineage.ReadableIn(env, s, namespace, chain[n])
    ensures ReadableTo(env, s, namespace, chain, n + 1)
  {
  }

  /** A member of the history that cannot be read hides everything behind it and all that is only named. */
  lemma HistoryUnreadable(env: Env, s: Store, namespace: Namespace, head: Digest, target: Digest, n: nat)
    requires head in s.generations && n < |HistoryOf(s, head)| && target !in HistoryOf(s, head)[..n]
    requires !Lineage.ReadableIn(env, s, namespace, HistoryOf(s, head)[n])
    ensures forall depth :: !Authorised(env, s, namespace, head, target, depth)
  {
    var chain := HistoryOf(s, head);
    forall j | 0 <= j < n ensures chain[j] != target {
      assert chain[j] == chain[..n][j];
    }
  }

  // ----- All generations

  ghost function Members(chain: seq<Digest>): set<Digest> { set d | d in chain }

  function Named(a: Authority): set<Digest> {
    (set p | p in a.restorePoints :: p.generation) + (set p | p in a.pins && p.PinGeneration? :: p.digest)
  }

  function DirectCost(env: Env, s: Store, d: Digest): nat {
    if d in s.generations then env.sizes(GenerationName(d)) + env.sizes(PlanName(s.generations[d].planId)) else 0
  }

  /** A generation retained without its history: readable, rebuilt from its plan alone, and as its restore
      point describes it. */
  predicate DirectHolds(env: Env, s: Store, namespace: Namespace, a: Authority, d: Digest) {
    && Lineage.ReadableIn(env, s, namespace, d) && PlanStored(env, s, d)
    && FloorHolds(env, s.generations[d], s.plans[s.generations[d].planId]) && PointAgrees(s, a, d)
  }

  ghost predicate DirectsHold(env: Env, s: Store, namespace: Namespace, a: Authority, direct: set<Digest>) {
    forall d :: d in direct ==> DirectHolds(env, s, namespace, a, d)
  }

  ghost function DirectBytes(env: Env, s: Store, direct: set<Digest>): nat { SumOver(direct, d => DirectCost(env, s, d)) }

  ghost function InventoryOf(s: Store, head: Digest): set<Digest>
    requires head in s.generations
  {
    Members(HistoryOf(s, head)) + Named(s.generations[head].authority)
  }

  /** When the whole list can be given out. */
  ghost predicate InventoryHolds(env: Env, s: Store, namespace: Namespace, head: Digest, maxGenerations: nat, maxBytes: nat) {
    && Lineage.ReadableIn(env, s, namespace, head)
    && var a := s.generations[head].authority;
       var chain := HistoryOf(s, head);
       var direct := Named(a) - Members(chain);
       && ChainHolds(env, s, namespace, head, a.history, maxBytes)
       && |Members(chain)| + |direct| <= maxGenerations
       && DirectsHold(env, s, namespace, a, direct)
       && DirectBytes(env, s, direct) <= MAX_LINEAGE_VALIDATION_BYTES
       && ChainCost(env, s, chain, a.history) + DirectBytes(env, s, direct) <= maxBytes
  }

  lemma DirectBytesAdd(env: Env, s: Store, done: set<Digest>, direct: set<Digest>, d: Digest)
    requires done <= direct && d in direct && d !in done
    ensures DirectBytes(env, s, done + {d}) == DirectBytes(env, s, done) + DirectCost(env, s, d) <= DirectBytes(env, s, direct)
  {
    var weight := (e: Digest) => DirectCost(env, s, e);
    SumOverRemove(done + {d}, weight, d);
    assert done + {d} - {d} == done;
    SumOverMonotone(done + {d}, direct, weight);
  }

  method ValidateDirect(env: Env, s: Store, namespace: Namespace, a: Authority, direct: set<Digest>)
    returns (ok: bool, spent: nat)
    ensures ok <==> DirectsHold(env, s, namespace, a, direct) && DirectBytes(env, s, direct) <= MAX_LINEAGE_VALIDATION_BYTES
    ensures ok ==> spent == DirectBytes(env, s, direct)
  {
    hide DirectHolds, DirectBytes, DirectCost;
    spent := 0;
    var done: set<Digest> := {};
    NoDirectBytes(env, s);
    while done != direct
      invariant done <= direct && spent == DirectBytes(env, s, done) <= MAX_LINEAGE_VALIDATION_BYTES
      invariant DirectsHold(env, s, namespace, a, done)
      decreases direct - done
    {
      assert !(direct <= done);
      var d :| d in direct && d !in done;
      DirectBytesAdd(env, s, done, direct, d);
      if !DirectHolds(env, s, namespace, a, d) {
        return false, spent;
      }
      spent := spent + DirectCost(env, s, d);
      if spent > MAX_LINEAGE_VALIDATION_BYTES {
        return false, spent;
      }
      done := done + {d};
    }
    ok := true;
  }

  lemma NoDirectBytes(env: Env, s: Store)
    ensures DirectBytes(env, s, {}) == 0
  {
  }

  /** The generations of a namespace that its head retains. */
  method InspectInventory(env: Env, s: Store, namespace: Namespace, head: Digest, maxGenerations: nat, maxBytes: nat)
    returns (r: Result<set<Digest>, LineageError>)
    ensures r.Success? <==> InventoryHolds(env, s, namespace, head, maxGenerations, maxBytes)
    ensures r.Success? ==> r.value == InventoryOf(s, head)
  {
    hide ChainHolds, DirectsHold, DirectBytes, ChainCost, ChainOf;
    if !Lineage.ReadableIn(env, s, namespace, head) {
      return Failure(if Stored(env, s, head) then OtherNamespace else MissingRecord);
    }
    var a := s.generations[head].authority;
    var chain, spent := InspectLineage(env, s, namespace, head, a.history, maxBytes);
    if chain.Failure? {
      return Failure(chain.error);
    }
    var generations := set d | d in chain.value;
    var direct := Named(a) - generations;
    assert generations == Members(HistoryOf(s, head));
    if |generations| + |direct| > maxGenerations {
      return Failure(TooMany);
    }
    var ok, directSpent := ValidateDirect(env, s, namespace, a, direct);
    if !ok {
      return Failure(TransitionDiffers);
    }
    if spent + directSpent > maxBytes {
      return Failure(OverBudget);
    }
    r := Success(generations + direct);
  }

  lemma NamedIsDirect(a: Authority, d: Digest)
    ensures d in Named(a) <==> DirectlyNamed(a, d)
  {
    if d in Named(a) && PinGeneration(d) !in a.pins {
      var p :| p in a.restorePoints && p.generation == d;
    }
    if FindPoint(a.restorePoints, d).Some? {
      assert FindPoint(a.restorePoints, d).value in a.restorePoints;
    }
  }

  /** The place where a member of a sequence first occurs. */
  lemma {:induction false} FirstOf(chain: seq<Digest>, d: Digest) returns (i: nat)
    requires d in chain
    ensures i < |chain| && chain[i] == d && d !in chain[..i]
  {
    if chain[0] == d {
      i := 0;
    } else {
      var k := FirstOf(chain[1..], d);
      i := k + 1;
      assert chain[..i] == [chain[0]] + chain[1..][..k];
    }
  }

  /** A list that is given out names exactly the generations that may be loaded one at a time. */
  lemma InventoryIsAuthorised(env: Env, s: Store, namespace: Namespace, head: Digest, maxGenerations: nat, maxBytes: nat, target: Digest)
    requires InventoryHolds(env, s, namespace, head, maxGenerations, maxBytes)
    ensures target in InventoryOf(s, head) <==> exists depth :: Authorised(env, s, namespace, head, target, depth)
  {
    hide ChainOf, ChainCost, DirectBytes;
    var a, chain := s.generations[head].authority, HistoryOf(s, head);
    ChainReadable(env, s, namespace, chain, a.history);
    NamedIsDirect(a, target);
    if target in chain {
      var i := FirstOf(chain, target);
      ChainLength(s.generations, head, a.history);
      assert FoundAt(env, s, namespace, chain, target, i);
      assert Authorised(env, s, namespace, head, target, a.history - i);
    } else if target in Named(a) {
      assert DirectHolds(env, s, namespace, a, target);
      assert NamedOnly(env, s, namespace, chain, a, target);
      assert Authorised(env, s, namespace, head, target, 1);
    }
  }

  lemma ChainReadable(env: Env, s: Store, namespace: Namespace, chain: seq<Digest>, limit: nat)
    requires MembersHold(env, s, namespace, chain, limit)
    ensures forall n :: ReadableTo(env, s, namespace, chain, n)
  {
  }
}
