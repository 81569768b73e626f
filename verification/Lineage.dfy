/** Inspection of histories: the verified predecessor chain of a generation, and which generations the
    current authority of a namespace lets a caller look at. */
module Lineage {
  import opened Base
  import opened Graphs
  import opened Names
  import opened Store
  import opened Retention

  datatype LineageError = Cycle | MissingRecord | OverBudget | OtherNamespace | TransitionDiffers | NotRetained | PointDiffers | NoHead | TooMany

  /** The predecessor chain from `d`, at most `left` generations long. */
  ghost function ChainOf(gens: Generations, d: Digest, left: nat): seq<Digest>
    decreases left
  {
    if left == 0 then [] else [d] + BehindOf(gens, d, left)
  }

  ghost function BehindOf(gens: Generations, d: Digest, left: nat): seq<Digest>
    requires left > 0
    decreases left, 0
  {
    if d in gens && gens[d].previous.Some? then ChainOf(gens, gens[d].previous.value, left - 1) else []
  }

  predicate Stored(env: Env, s: Store, d: Digest) { d in s.generations && Sound(env, GenerationName(d)) }

  /** A generation that can be read and belongs to the namespace. */
  predicate ReadableIn(env: Env, s: Store, namespace: Namespace, d: Digest) {
    Stored(env, s, d) && s.generations[d].namespace == namespace
  }

  predicate PlanStored(env: Env, s: Store, d: Digest)
    requires d in s.generations
  {
    var p := s.generations[d].planId;
    p in s.plans && Sound(env, PlanName(p))
  }

  /** A chain member with its plan, rebuilt with its predecessor unless it is at the floor of the chain. */
  ghost predicate MemberHolds(env: Env, s: Store, namespace: Namespace, d: Digest, floor: bool) {
    && ReadableIn(env, s, namespace, d) && PlanStored(env, s, d)
    && var g := s.generations[d]; var p := s.plans[g.planId];
       if floor && g.previous.Some? then FloorHolds(env, g, p)
       else if g.previous.Some? then Stored(env, s, g.previous.value) && TransitionHolds(env, g, p, Some(s.generations[g.previous.value]))
       else TransitionHolds(env, g, p, None)
  }

  /** The charge for one member: its record, its plan, and its predecessor when that is looked up. */
  ghost function StepCost(env: Env, s: Store, d: Digest, floor: bool): nat {
    env.sizes(GenerationName(d))
    + if d !in s.generations then 0 else
        var g := s.generations[d];
        env.sizes(PlanName(g.planId)) + (if !floor && g.previous.Some? then env.sizes(GenerationName(g.previous.value)) else 0)
  }

  /** Bytes charged for a chain: predecessors are charged twice, once looked up and once inspected. */
  ghost function ChainCost(env: Env, s: Store, chain: seq<Digest>, limit: nat): nat {
    if chain == [] then 0 else StepCost(env, s, chain[0], limit == 1) + ChainCost(env, s, chain[1..], if limit > 0 then limit - 1 else 0)
  }

  ghost predicate MembersHold(env: Env, s: Store, namespace: Namespace, chain: seq<Digest>, limit: nat) {
    forall i :: 0 <= i < |chain| ==> MemberHolds(env, s, namespace, chain[i], i + 1 == limit)
  }

  /** When a chain passes inspection. */
  ghost predicate ChainHolds(env: Env, s: Store, namespace: Namespace, start: Digest, limit: nat, maxBytes: nat) {
    var chain := ChainOf(s.generations, start, limit);
    Distinct(chain) && MembersHold(env, s, namespace, chain, limit) && ChainCost(env, s, chain, limit) <= maxBytes
  }

  lemma ChainLength(gens: Generations, d: Digest, left: nat)
    ensures |ChainOf(gens, d, left)| <= left && (left > 0 ==> 0 < |ChainOf(gens, d, left)| && ChainOf(gens, d, left)[0] == d)
    decreases left
  {
    if left > 0 && d in gens && gens[d].previous.Some? {
      ChainLength(gens, gens[d].previous.value, left - 1);
    }
  }

  /** What is behind a member of a chain. */
  lemma {:induction false} ChainSplit(gens: Generations, start: Digest, limit: nat, i: nat)
    requires i < |ChainOf(gens, start, limit)|
    ensures i < limit && ChainOf(gens, start, limit)[i..] == ChainOf(gens, ChainOf(gens, start, limit)[i], limit - i)
    decreases i
  {
    ChainLength(gens, start, limit);
    var chain := ChainOf(gens, start, limit);
    if i == 0 {
      assert chain[0..] == chain;
    } else {
      ChainSplit(gens, start, limit, i - 1);
      var d := chain[i - 1];
      assert chain[i - 1..] == [d] + BehindOf(gens, d, limit - (i - 1));
      assert chain[i - 1..][1..] == chain[i..];
      assert chain[i..] == BehindOf(gens, d, limit - (i - 1));
      ChainLength(gens, gens[d].previous.value, limit - i);
      assert chain[i..][0] == chain[i];
    }
  }

  /** One step of the walk: the record at `d`, its plan, and its predecessor unless `d` is at the floor. */
  method InspectMember(env: Env, s: Store, namespace: Namespace, d: Digest, floor: bool, spent: nat, maxBytes: nat)
    returns (r: Result<Option<Digest>, LineageError>, total: nat)
    ensures r.Success? <==> MemberHolds(env, s, namespace, d, floor) && spent + StepCost(env, s, d, floor) <= maxBytes
    ensures r.Success? ==> total == spent + StepCost(env, s, d, floor) && r.value == if floor then None else s.generations[d].previous
  {
    total := spent;
    if !Stored(env, s, d) {
      return Failure(MissingRecord), total;
    }
    var g := s.generations[d];
    total := total + env.sizes(GenerationName(d));
    if total > maxBytes {
      return Failure(OverBudget), total;
    }
    if g.namespace != namespace {
      return Failure(OtherNamespace), total;
    }
    if !PlanStored(env, s, d) {
      return Failure(MissingRecord), total;
    }
    var p := s.plans[g.planId];
    total := total + env.sizes(PlanName(g.planId));
    if total > maxBytes {
      return Failure(OverBudget), total;
    }
    var previous: Option<Generation> := None;
    if !floor && g.previous.Some? {
      if !Stored(env, s, g.previous.value) {
        return Failure(MissingRecord), total;
      }
      previous := Some(s.generations[g.previous.value]);
      total := total + env.sizes(GenerationName(g.previous.value));
      if total > maxBytes {
        return Failure(OverBudget), total;
      }
    }
    var holds := if floor && g.previous.Some? then FloorHolds(env, g, p) else TransitionHolds(env, g, p, previous);
    if !holds {
      return Failure(TransitionDiffers), total;
    }
    r := Success(if floor then None else g.previous);
  }

  /** What is left of a chain when the walk stands at `at`. */
  ghost function Ahead(gens: Generations, at: Option<Digest>, left: nat): seq<Digest> {
    if at.Some? then ChainOf(gens, at.value, left) else []
  }

  lemma AheadStep(env: Env, s: Store, namespace: Namespace, d: Digest, left: nat)
    requires left > 0 && d in s.generations
    ensures var next := if left == 1 then None else s.generations[d].previous;
      && Ahead(s.generations, Some(d), left) == [d] + Ahead(s.generations, next, left - 1)
      && ChainCost(env, s, Ahead(s.generations, Some(d), left), left)
           == StepCost(env, s, d, left == 1) + ChainCost(env, s, Ahead(s.generations, next, left - 1), left - 1)
  {
    var next := if left == 1 then None else s.generations[d].previous;
    var chain := Ahead(s.generations, Some(d), left);
    var previous := s.generations[d].previous;
    if previous.Some? && left == 1 {
      assert ChainOf(s.generations, previous.value, 0) == [];
    }
    assert BehindOf(s.generations, d, left) == Ahead(s.generations, next, left - 1);
    assert ChainOf(s.generations, d, left) == [d] + BehindOf(s.generations, d, left);
    assert chain[1..] == Ahead(s.generations, next, left - 1);
  }

  /** A walk under way: what it has passed, where it stands, and what it has spent. */
  ghost predicate Progress(env: Env, s: Store, namespace: Namespace, start: Digest, limit: nat, maxBytes: nat,
                           done: seq<Digest>, at: Option<Digest>, left: nat, spent: nat)
  {
    var chain := ChainOf(s.generations, start, limit);
    && |done| + left == limit && chain == done + Ahead(s.generations, at, left)
    && ChainCost(env, s, chain, limit) == spent + ChainCost(env, s, Ahead(s.generations, at, left), left)
    && Distinct(done) && spent <= maxBytes && MembersHold(env, s, namespace, done, limit)
  }

  lemma ProgressStep(env: Env, s: Store, namespace: Namespace, start: Digest, limit: nat, maxBytes: nat, done: seq<Digest>, d: Digest, left: nat, spent: nat)
    requires left > 0 && Progress(env, s, namespace, start, limit, maxBytes, done, Some(d), left, spent)
    requires d !in done && MemberHolds(env, s, namespace, d, left == 1) && spent + StepCost(env, s, d, left == 1) <= maxBytes
    ensures Progress(env, s, namespace, start, limit, maxBytes, done + [d], if left == 1 then None else s.generations[d].previous, left - 1,
              spent + StepCost(env, s, d, left == 1))
  {
    hide MemberHolds, StepCost, ChainCost, ChainOf;
    MemberStored(env, s, namespace, d, left == 1);
    AheadStep(env, s, namespace, d, left);
    var next := if left == 1 then None else s.generations[d].previous;
    assert done + ([d] + Ahead(s.generations, next, left - 1)) == done + [d] + Ahead(s.generations, next, left - 1);
    assert (done + [d])[|done|] == d;
  }

  /** A repeated, unsound or unaffordable member shows that the whole chain does not hold. */
  lemma ChainFails(env: Env, s: Store, namespace: Namespace, start: Digest, limit: nat, maxBytes: nat, done: seq<Digest>, d: Digest, left: nat, spent: nat)
    requires left > 0 && Progress(env, s, namespace, start, limit, maxBytes, done, Some(d), left, spent)
    requires d in done || !MemberHolds(env, s, namespace, d, left == 1) || spent + StepCost(env, s, d, left == 1) > maxBytes
    ensures !ChainHolds(env, s, namespace, start, limit, maxBytes)
  {
    hide MemberHolds, StepCost, ChainCost;
    ChainLength(s.generations, d, left);
    var chain := ChainOf(s.generations, start, limit);
    assert chain[|done|] == d;
    if d in done {
      var i :| 0 <= i < |done| && done[i] == d;
      assert chain[i] == chain[|done|];
    } else if MemberHolds(env, s, namespace, d, left == 1) {
      MemberStored(env, s, namespace, d, left == 1);
      AheadStep(env, s, namespace, d, left);
    }
  }

  /** The verified chain.  It succeeds exactly when the chain has no cycle, every member holds and the byte
      limit suffices, and returns the whole chain. */
  method InspectLineage(env: Env, s: Store, namespace: Namespace, start: Digest, limit: nat, maxBytes: nat)
    returns (r: Result<seq<Digest>, LineageError>, spent: nat)
    ensures r.Success? <==> ChainHolds(env, s, namespace, start, limit, maxBytes)
    ensures r.Success? ==> r.value == ChainOf(s.generations, start, limit) && spent == ChainCost(env, s, r.value, limit)
  {
    hide MemberHolds, StepCost, Progress, ChainHolds, ChainCost, ChainOf;
    spent := 0;
    var done: seq<Digest>, at, left := [], Some(start), limit;
    ProgressStart(env, s, namespace, start, limit, maxBytes);
    while at.Some? && left > 0
      invariant Progress(env, s, namespace, start, limit, maxBytes, done, at, left, spent)
      decreases left
    {
      var d := at.value;
      if d in done {
        ChainFails(env, s, namespace, start, limit, maxBytes, done, d, left, spent);
        return Failure(Cycle), spent;
      }
      var member, total := InspectMember(env, s, namespace, d, left == 1, spent, maxBytes);
      if member.Failure? {
        ChainFails(env, s, namespace, start, limit, maxBytes, done, d, left, spent);
        return Failure(member.error), total;
      }
      ProgressStep(env, s, namespace, start, limit, maxBytes, done, d, left, spent);
      done, at, left, spent := done + [d], member.value, left - 1, total;
    }
    ProgressDone(env, s, namespace, start, limit, maxBytes, done, at, left, spent);
    r := Success(done);
  }

  lemma ProgressStart(env: Env, s: Store, namespace: Namespace, start: Digest, limit: nat, maxBytes: nat)
    ensures Progress(env, s, namespace, start, limit, maxBytes, [], Some(start), limit, 0)
  {
  }

  lemma ProgressDone(env: Env, s: Store, namespace: Namespace, start: Digest, limit: nat, maxBytes: nat, done: seq<Digest>, at: Option<Digest>, left: nat, spent: nat)
    requires Progress(env, s, namespace, start, limit, maxBytes, done, at, left, spent) && (at.None? || left == 0)
    ensures done == ChainOf(s.generations, start, limit) && spent == ChainCost(env, s, done, limit)
    ensures ChainHolds(env, s, namespace, start, limit, maxBytes)
  {
    assert Ahead(s.generations, at, left) == [];
  }

  lemma MemberStored(env: Env, s: Store, namespace: Namespace, d: Digest, floor: bool)
    requires MemberHolds(env, s, namespace, d, floor)
    ensures d in s.generations
  {
  }
}
