/** Which entries of a store stay: the roots, what is reachable from them, and the conditions under which
    a prune goes ahead. */
module Retention {
  import opened Base
  import opened Graphs
  import opened Canonical
  import opened Names
  import opened TreeGraph
  import opened TreeClosure
  import opened Loader
  import opened Store
  import opened RemovalOrder

  datatype Request = Request(plans: set<PlanId>, sweep: bool)

  // ----- Roots

  datatype Roots = Roots(histories: set<(Digest, nat)>, points: set<RestorePoint>, pins: set<Pin>)

  function HeadRecords(s: Store): set<Generation> {
    set h | h in s.catalog && h.generation in s.generations :: s.generations[h.generation]
  }

  function PlanRecords(s: Store, chosen: set<PlanId>): set<Plan> {
    set p | p in chosen && p in s.plans :: s.plans[p]
  }

  function PointsOf(point: Option<RestorePoint>, a: Authority): set<RestorePoint> {
    (if point.Some? then {point.value} else {}) + set p | p in a.restorePoints
  }

  /** What the catalog heads and the chosen plans ask for. */
  function RootsOf(s: Store, chosen: set<PlanId>): Roots {
    Roots(
      (set h | h in s.catalog && h.generation in s.generations :: (h.generation, s.generations[h.generation].authority.history)),
      (set g, p | g in HeadRecords(s) && p in PointsOf(g.restorePoint, g.authority) :: p)
      + (set r, p | r in PlanRecords(s, chosen) && p in PointsOf(r.restorePoint, r.authority) :: p),
      (set g, p | g in HeadRecords(s) && p in g.authority.pins :: p)
      + (set r, p | r in PlanRecords(s, chosen) && p in r.authority.pins :: p))
  }

  function GenerationRoots(roots: Roots): set<(Digest, nat)> {
    roots.histories
    + (set p | p in roots.points :: (p.generation, 1))
    + (set p | p in roots.pins && p.PinGeneration? :: (p.digest, 1))
  }

  function PinnedPlans(roots: Roots): set<PlanId> { set p | p in roots.pins && p.PinPlan? :: p.plan }
  function PinnedBlobs(roots: Roots): set<Digest> { set p | p in roots.pins && p.PinBlob? :: p.digest }
  function PinnedPacks(roots: Roots): set<Digest> { set p | p in roots.pins && p.PinPack? :: p.digest }

  function PinnedMarks(roots: Roots): Marks {
    Marks(
      (set p | p in roots.pins && p.PinFile? :: p.digest),
      (set p | p in roots.pins && p.PinSymlink? :: p.digest),
      (set p | p in roots.pins && p.PinTree? :: p.digest))
  }

  // ----- Bounded history

  type Generations = map<Digest, Generation>

  /** The generation `n` predecessor steps behind `d`. */
  ghost function Ancestor(gens: Generations, d: Digest, n: nat): Option<Digest> {
    if n == 0 then Some(d) else
      var child := Ancestor(gens, d, n - 1);
      if child.Some? && child.value in gens then gens[child.value].previous else None
  }

  ghost predicate Within(gens: Generations, root: (Digest, nat), d: Digest) {
    exists n :: 0 <= n < root.1 && Ancestor(gens, root.0, n) == Some(d)
  }

  /** The lineage behind a root is complete and free of cycles as far as its limit goes. */
  ghost predicate LineageHolds(gens: Generations, root: (Digest, nat)) {
    && (forall n :: 0 <= n < root.1 && Ancestor(gens, root.0, n).Some? ==> Ancestor(gens, root.0, n).value in gens)
    && (forall m, n :: 0 <= m < n < root.1 && Ancestor(gens, root.0, n).Some? ==> Ancestor(gens, root.0, m) != Ancestor(gens, root.0, n))
  }

  ghost predicate Reached(gens: Generations, roots: Roots, d: Digest) {
    exists root :: root in GenerationRoots(roots) && Within(gens, root, d)
  }

  ghost function Reachable(gens: Generations, roots: Roots): set<Digest> {
    set d | d in gens && Reached(gens, roots, d)
  }

  // ----- What stays

  datatype Kept = Kept(generations: set<Digest>, plans: set<PlanId>, blobs: set<Digest>, packs: set<Digest>, marks: Marks)

  function Chosen(s: Store, req: Request): set<PlanId> { s.plans.Keys - req.plans }

  /** Plans that a reachable generation needs or that are pinned. */
  ghost function NeededPlans(s: Store, roots: Roots, reach: set<Digest>): set<PlanId> {
    (set d | d in reach && d in s.generations :: s.generations[d].planId) + PinnedPlans(roots)
  }

  function Survivors(s: Store, req: Request, needed: set<PlanId>): set<PlanId> {
    set p | p in s.plans && p !in req.plans && (req.sweep ==> p in needed)
  }

  function GenerationRecords(s: Store, some: set<Digest>): set<Generation> {
    set d | d in some && d in s.generations :: s.generations[d]
  }

  function GenerationBlobs(g: Generation): set<Digest> { (set d | d in g.artifacts) + FileBlobs(g.targets) }

  function MemberBlobs(s: Store, packs: set<Digest>): set<Digest> {
    set d, m | d in packs && d in s.manifests && m in s.manifests[d].members :: m.blob
  }

  function PacksOf(s: Store, roots: Roots, plans: set<PlanId>): set<Digest> {
    PinnedPacks(roots) + set r, d | r in PlanRecords(s, plans) && d in PackRoots(r) :: d
  }

  function BlobsOf(s: Store, roots: Roots, reach: set<Digest>, plans: set<PlanId>): set<Digest> {
    PinnedBlobs(roots)
    + (set g, d | g in GenerationRecords(s, reach) && d in GenerationBlobs(g) :: d)
    + (set r, d | r in PlanRecords(s, plans) && d in ArtifactBlobs(r) :: d)
  }

  /** Canonical roots named by the state of some generations and plans. */
  function StateTrees(s: Store, reach: set<Digest>, plans: set<PlanId>): set<Digest> {
    (set g, d | g in GenerationRecords(s, reach) && d in TreeRoots(g.targets, g.trackedRoot) :: d)
    + (set r, d | r in PlanRecords(s, plans) && d in TreeRoots(r.targets, r.trackedRoot) :: d)
  }

  function StateLinks(s: Store, reach: set<Digest>, plans: set<PlanId>): set<Digest> {
    (set g, d | g in GenerationRecords(s, reach) && d in LinkRoots(g.targets) :: d)
    + (set r, d | r in PlanRecords(s, plans) && d in LinkRoots(r.targets) :: d)
  }

  ghost function StateMarks(s: Store, reach: set<Digest>, plans: set<PlanId>): Marks {
    ClosureOf(s.objects.trees, Marks({}, StateLinks(s, reach, plans), StateTrees(s, reach, plans)))
  }

  ghost function KeptWith(s: Store, roots: Roots, reach: set<Digest>, plans: set<PlanId>): Kept {
    var packs := PacksOf(s, roots, plans);
    Kept(reach, plans, BlobsOf(s, roots, reach, plans) + MemberBlobs(s, packs), packs,
      Join2(StateMarks(s, reach, plans), ClosureOf(s.objects.trees, PinnedMarks(roots))))
  }

  ghost function KeptOf(s: Store, req: Request): Kept {
    var roots := RootsOf(s, Chosen(s, req));
    var reach := Reachable(s.generations, roots);
    KeptWith(s, roots, reach, Survivors(s, req, NeededPlans(s, roots, reach)))
  }

  ghost function KeptNames(k: Kept): set<Name> {
    (set d | d in k.generations :: GenerationName(d))
    + (set d | d in k.plans :: PlanName(d))
    + (set d | d in k.blobs :: BlobName(d))
    + (set d | d in k.packs :: PackName(d))
    + (set d | d in k.packs :: ManifestName(d))
    + MarkNames(k.marks)
  }

  ghost predicate Keeps(k: Kept, n: Name) {
    match n
    case GenerationName(d) => d in k.generations
    case PlanName(d) => d in k.plans
    case BlobName(d) => d in k.blobs
    case PackName(d) => d in k.packs
    case ManifestName(d) => d in k.packs
    case TreeName(d) => d in k.marks.trees
    case SymlinkName(d) => d in k.marks.symlinks
    case FileName(d) => d in k.marks.files
  }

  lemma KeptNamesMember(k: Kept, n: Name)
    ensures n in KeptNames(k) <==> Keeps(k, n)
  {
  }

  /** What a prune removes. */
  ghost function Garbage(s: Store, req: Request): set<Name> { NamesOf(s) - KeptNames(KeptOf(s, req)) }

  lemma GarbageMember(s: Store, req: Request, n: Name)
    ensures n in Garbage(s, req) <==> OnDisk(s, n) && !Keeps(KeptOf(s, req), n)
  {
    hide KeptOf, NamesOf, KeptNames, OnDisk, Keeps;
    NamesOfMember(s, n);
    KeptNamesMember(KeptOf(s, req), n);
  }

  // ----- When a prune goes ahead

  ghost function DiskOf(env: Env, s: Store): Disk { Disk(s.objects, env.sizes, env.misshapen + env.damaged) }

  predicate RecordsSound(env: Env, s: Store) {
    && (forall d :: d in s.generations ==> Sound(env, GenerationName(d)))
    && (forall d :: d in s.plans ==> Sound(env, PlanName(d)))
  }

  /** A blob is stored in good shape and with the given length. */
  predicate BlobHolds(env: Env, s: Store, d: Digest, byteLen: nat) {
    d in s.blobs && BlobName(d) !in env.misshapen && env.sizes(BlobName(d)) == byteLen
  }

  predicate ArtifactsHold(env: Env, s: Store) {
    forall p, a :: p in s.plans && a in s.plans[p].artifacts ==> BlobHolds(env, s, a.digest, a.byteLen)
  }

  /** A generation is what its plan produces; without its predecessor, only the plan is consulted. */
  predicate Rebuilds(env: Env, gens: Generations, plans: map<PlanId, Plan>, g: Generation) {
    g.planId in plans && var p := plans[g.planId];
    match g.previous {
      case None => TransitionHolds(env, g, p, None)
      case Some(d) => if d in gens then TransitionHolds(env, g, p, Some(gens[d])) else FloorHolds(env, g, p)
    }
  }

  predicate GenerationsRebuild(env: Env, s: Store) {
    forall d :: d in s.generations ==> Rebuilds(env, s.generations, s.plans, s.generations[d])
  }

  predicate HeadsHold(env: Env, s: Store) {
    && (forall h :: h in s.catalog ==> h.generation in s.generations && s.generations[h.generation].namespace == h.namespace)
    && env.projection(Selected(s))
  }

  function Selected(s: Store): seq<(Namespace, Generation)>
    requires forall h :: h in s.catalog ==> h.generation in s.generations
  {
    seq(|s.catalog|, i requires 0 <= i < |s.catalog| =>
      assert s.catalog[i] in s.catalog; (s.catalog[i].namespace, s.generations[s.catalog[i].generation]))
  }

  ghost predicate PointsHold(gens: Generations, points: set<RestorePoint>) {
    forall p :: p in points ==> p.generation in gens && PointMatches(p, p.generation, gens[p.generation])
  }

  ghost predicate LineagesHold(gens: Generations, roots: set<(Digest, nat)>) {
    forall root :: root in roots ==> LineageHolds(gens, root)
  }

  /** File targets of the reachable generations have their contents. */
  predicate TargetsHold(env: Env, s: Store, reach: set<Digest>) {
    forall d, t :: d in reach && d in s.generations && t in s.generations[d].targets && t.FileTarget? && t.file.Some? ==>
      BlobHolds(env, s, t.file.value.digest, t.file.value.byteLen)
  }

  /** Kept deduplicated packs can be decoded and have their members. */
  predicate ManifestsHold(env: Env, s: Store, packs: set<Digest>) {
    forall d :: d in packs && d in s.manifests ==>
      Sound(env, ManifestName(d)) && forall m :: m in s.manifests[d].members ==> BlobHolds(env, s, m.blob, m.byteLen)
  }

  /** A pack name is inspected under its manifest when there is one, and as a monolithic object otherwise. */
  predicate PacksShaped(env: Env, s: Store) {
    && (forall d :: d in s.manifests ==> ManifestName(d) !in env.misshapen)
    && (forall d :: d in s.packs && d !in s.manifests ==> PackName(d) !in env.misshapen)
  }

  /** Every canonical entry is in shape, and every stored tree decodes. */
  predicate CanonicalShaped(env: Env, s: Store) {
    && (forall d :: d in s.objects.files ==> FileName(d) !in env.misshapen)
    && (forall d :: d in s.objects.symlinks ==> SymlinkName(d) !in env.misshapen)
    && (forall d :: d in s.objects.trees ==> Sound(env, TreeName(d)))
  }

  ghost predicate KeptStored(s: Store, k: Kept) {
    && k.blobs <= s.blobs
    && k.packs <= s.packs + s.manifests.Keys
    && MarksWithin(k.marks, KeysOf(s.objects))
  }

  predicate RemovedBlobsShaped(env: Env, s: Store, kept: set<Digest>) {
    forall d :: d in s.blobs && d !in kept ==> BlobName(d) !in env.misshapen
  }

  // Loads and their costs

  ghost predicate Loads(env: Env, s: Store, roots: set<Digest>, direct: set<Digest>) {
    && Readable(DiskOf(env, s), LoadMarks(DiskOf(env, s), roots, direct))
    && (forall r :: r in roots ==> ValidTree(s.objects, r))
  }

  ghost predicate LoadsHold(env: Env, s: Store, roots: Roots) {
    && Loads(env, s, StateTrees(s, s.generations.Keys, s.plans.Keys), StateLinks(s, s.generations.Keys, s.plans.Keys))
    && Loads(env, s, PinnedMarks(roots).trees, PinnedMarks(roots).symlinks)
  }

  ghost function LoadItems(s: Store, roots: set<Digest>, direct: set<Digest>): nat {
    Work(s.objects.trees, roots) + |ClosureOf(s.objects.trees, Marks({}, direct, roots)).symlinks|
  }

  ghost function LoadBytes(env: Env, s: Store, roots: set<Digest>, direct: set<Digest>): nat {
    SumOver(MarkNames(ClosureOf(s.objects.trees, Marks({}, direct, roots))), env.sizes)
  }

  /** Work items of the three loads of one prune: everything recorded, everything retained, every pin. */
  ghost function ItemsCharged(s: Store, roots: Roots, k: Kept): nat {
    LoadItems(s, StateTrees(s, s.generations.Keys, s.plans.Keys), StateLinks(s, s.generations.Keys, s.plans.Keys))
    + LoadItems(s, StateTrees(s, k.generations, k.plans), StateLinks(s, k.generations, k.plans))
    + LoadItems(s, PinnedMarks(roots).trees, PinnedMarks(roots).symlinks)
  }

  function RecordNames(s: Store): set<Name> {
    (set d | d in s.plans :: PlanName(d)) + (set d | d in s.generations :: GenerationName(d))
  }

  function ManifestNames(s: Store, packs: set<Digest>): set<Name> {
    set d | d in packs && d in s.manifests :: ManifestName(d)
  }

  function TreeNames(s: Store): set<Name> { set d | d in s.objects.trees :: TreeName(d) }

  ghost function BytesCharged(env: Env, s: Store, roots: Roots, k: Kept): nat {
    SumOver(RecordNames(s), env.sizes)
    + LoadBytes(env, s, StateTrees(s, s.generations.Keys, s.plans.Keys), StateLinks(s, s.generations.Keys, s.plans.Keys))
    + LoadBytes(env, s, StateTrees(s, k.generations, k.plans), StateLinks(s, k.generations, k.plans))
    + LoadBytes(env, s, PinnedMarks(roots).trees, PinnedMarks(roots).symlinks)
    + SumOver(ManifestNames(s, k.packs), env.sizes)
    + SumOver(TreeNames(s), env.sizes)
  }

  predicate DirectoriesBounded(s: Store) {
    && |s.generations| <= MAX_RETENTION_ENTRIES && |s.plans| <= MAX_RETENTION_ENTRIES
    && |s.blobs| <= MAX_RETENTION_ENTRIES && |s.packs| <= MAX_RETENTION_ENTRIES && |s.manifests| <= MAX_RETENTION_ENTRIES
    && |s.objects.files| <= MAX_RETENTION_ENTRIES && |s.objects.symlinks| <= MAX_RETENTION_ENTRIES
    && |s.objects.trees| <= MAX_RETENTION_ENTRIES
  }

  ghost predicate WithinBudget(env: Env, s: Store, roots: Roots, k: Kept) {
    && DirectoriesBounded(s)
    && ItemsCharged(s, roots, k) <= MAX_RETENTION_ENTRIES
    && BytesCharged(env, s, roots, k) <= MAX_RETENTION_DECODED_BYTES
  }

  /** The checks that do not depend on the request. */
  ghost predicate StoreHolds(env: Env, s: Store) {
    && RecordsSound(env, s) && ArtifactsHold(env, s) && GenerationsRebuild(env, s) && HeadsHold(env, s)
    && PacksShaped(env, s) && CanonicalShaped(env, s)
  }

  /** The roots are good: restore points match, lineages are complete, needed plans exist. */
  ghost predicate RootsHold(env: Env, s: Store, req: Request) {
    var roots := RootsOf(s, Chosen(s, req));
    var reach := Reachable(s.generations, roots);
    && PointsHold(s.generations, roots.points)
    && LineagesHold(s.generations, GenerationRoots(roots))
    && TargetsHold(env, s, reach)
    && NeededPlans(s, roots, reach) <= s.plans.Keys
    && NeededPlans(s, roots, reach) !! req.plans
    && LoadsHold(env, s, roots)
  }

  /** What is not kept can go: blobs are in shape, and generations can be ordered. */
  ghost predicate Removable(env: Env, s: Store, k: Kept) {
    RemovedBlobsShaped(env, s, k.blobs) && Acyclic(PredecessorEdge(s.generations, s.generations.Keys - k.generations))
  }

  ghost predicate KeptHolds(env: Env, s: Store, k: Kept) {
    KeptStored(s, k) && ManifestsHold(env, s, k.packs) && Removable(env, s, k)
  }

  /** Everything but the look at what is to be removed. */
  ghost predicate Retainable(env: Env, s: Store, req: Request) {
    && req.plans <= s.plans.Keys
    && StoreHolds(env, s)
    && RootsHold(env, s, req)
    && KeptStored(s, KeptOf(s, req)) && ManifestsHold(env, s, KeptOf(s, req).packs)
    && WithinBudget(env, s, RootsOf(s, Chosen(s, req)), KeptOf(s, req))
  }

  /** Everything a prune checks before it removes anything. */
  ghost predicate Admissible(env: Env, s: Store, req: Request) {
    && req.plans <= s.plans.Keys
    && StoreHolds(env, s)
    && RootsHold(env, s, req)
    && KeptHolds(env, s, KeptOf(s, req))
    && WithinBudget(env, s, RootsOf(s, Chosen(s, req)), KeptOf(s, req))
  }

  lemma AdmissibleMeans(env: Env, s: Store, req: Request)
    ensures Admissible(env, s, req) <==> Retainable(env, s, req) && Removable(env, s, KeptOf(s, req))
  {
    hide KeptOf, RootsOf, StoreHolds, RootsHold, KeptStored, ManifestsHold, WithinBudget, Removable;
  }
}
