/** The roots that the store check collects on its own, what it finds missing, and how that relates to what
    a prune has kept. */
module FsckRoots {
  import opened Base
  import opened Canonical
  import opened Names
  import opened TreeGraph
  import opened TreeClosure
  import opened Loader
  import opened Store
  import opened Retention
  import opened FsckMarks

  // ----- What the check can see

  /** A deduplicated pack counts when its members are stored with their lengths. */
  ghost predicate ManifestComplete(env: Env, s: Store, m: Manifest) {
    forall x :: x in m.members ==> x.blob in s.blobs && env.sizes(BlobName(x.blob)) == x.byteLen
  }

  ghost function VisiblePacks(env: Env, s: Store): set<Digest> {
    if !env.packDirectory then {} else
      (set d | d in s.packs && Sound(env, PackName(d)))
      + (set d | d in s.manifests && Sound(env, ManifestName(d)) && ManifestComplete(env, s, s.manifests[d]))
  }

  /** The entries that load without a finding.  Packs are listed by digest alone, and only when the directory
      of monolithic packs exists. */
  ghost function Seen(env: Env, s: Store): Store {
    Store(s.catalog,
      map d | d in s.generations && Sound(env, GenerationName(d)) :: s.generations[d],
      map d | d in s.plans && Sound(env, PlanName(d)) :: s.plans[d],
      (set d | d in s.blobs && Sound(env, BlobName(d))),
      VisiblePacks(env, s),
      map[],
      CanonicalObjects(
        map d | d in s.objects.files && Sound(env, FileName(d)) :: s.objects.files[d],
        map d | d in s.objects.symlinks && Sound(env, SymlinkName(d)) :: s.objects.symlinks[d],
        map d | d in s.objects.trees && Sound(env, TreeName(d)) :: s.objects.trees[d]))
  }

  // ----- Walking histories

  datatype Start = Start(digest: Digest, limit: nat, namespace: Option<Namespace>)

  datatype Walk = Walk(reached: set<Digest>, missing: set<Name>)

  /** Records without which a generation's transition cannot be rebuilt. */
  function TransitionMissing(world: Store, g: Generation, floor: bool): set<Name> {
    if g.planId !in world.plans then {PlanName(g.planId)}
    else if !floor && g.previous.Some? && g.previous.value !in world.generations then {GenerationName(g.previous.value)}
    else {}
  }

  /** One history, from `d` over at most `left` generations, stopping at a cycle or another namespace. */
  ghost function WalkFrom(world: Store, namespace: Option<Namespace>, d: Digest, left: nat, seen: set<Digest>): Walk
    decreases left
  {
    if left == 0 || d in seen then Walk({}, {})
    else if d !in world.generations then Walk({}, {GenerationName(d)})
    else
      var g := world.generations[d];
      if namespace.Some? && namespace.value != g.namespace then Walk({}, {}) else
        var own := TransitionMissing(world, g, left == 1);
        if left == 1 || g.previous.None? then Walk({d}, own) else
          var rest := WalkFrom(world, Some(g.namespace), g.previous.value, left - 1, seen + {d});
          Walk({d} + rest.reached, own + rest.missing)
  }

  ghost function WalkStart(world: Store, start: Start): Walk {
    WalkFrom(world, start.namespace, start.digest, start.limit, {})
  }

  // ----- Roots

  function PointStarts(world: Store, points: set<RestorePoint>): set<Start> {
    set p | p in points && p.generation in world.generations && PointMatches(p, p.generation, world.generations[p.generation]) ::
      Start(p.generation, 1, Some(p.namespace))
  }

  function PinStarts(pins: set<Pin>): set<Start> { set p | p in pins && p.PinGeneration? :: Start(p.digest, 1, None) }

  function HeadStarts(world: Store): set<Start> {
    set h | h in world.catalog && h.generation in world.generations ::
      Start(h.generation, world.generations[h.generation].authority.history, Some(h.namespace))
  }

  function Claimed(world: Store): Roots { RootsOf(world, world.plans.Keys) }

  function Starts(world: Store): set<Start> {
    HeadStarts(world) + PointStarts(world, Claimed(world).points) + PinStarts(Claimed(world).pins)
  }

  ghost function ReachedBy(world: Store): set<Digest> {
    set st, d | st in Starts(world) && d in WalkStart(world, st).reached :: d
  }

  function AllPlans(world: Store): set<PlanId> { world.plans.Keys + PinnedPlans(Claimed(world)) }

  /** Blobs: pinned ones, and those of every plan and reached generation, including the files of a plan's
      own snapshot. */
  ghost function NeededBlobs(world: Store): set<Digest> {
    BlobsOf(world, Claimed(world), ReachedBy(world), world.plans.Keys)
    + (set r, d | r in PlanRecords(world, world.plans.Keys) && d in FileBlobs(r.targets) :: d)
  }

  function NeededPacks(world: Store): set<Digest> { PacksOf(world, Claimed(world), world.plans.Keys) }

  ghost function NeededMarks(world: Store): Marks {
    var pinned := PinnedMarks(Claimed(world));
    Marks(pinned.files,
      pinned.symlinks + StateLinks(world, ReachedBy(world), world.plans.Keys),
      pinned.trees + StateTrees(world, ReachedBy(world), world.plans.Keys))
  }

  // ----- Findings

  function MissingHeads(world: Store): set<Name> {
    set h | h in world.catalog && h.generation !in world.generations :: GenerationName(h.generation)
  }

  function MissingPoints(world: Store): set<Name> {
    set p | p in Claimed(world).points && p.generation !in world.generations :: GenerationName(p.generation)
  }

  ghost function MissingInWalks(world: Store): set<Name> {
    set st, n | st in Starts(world) && n in WalkStart(world, st).missing :: n
  }

  ghost function MissingBehindUnreached(world: Store): set<Name> {
    set d | d in world.generations && d !in ReachedBy(world) && world.generations[d].planId !in world.plans ::
      PlanName(world.generations[d].planId)
  }

  function MissingPlans(world: Store): set<Name> { set p | p in AllPlans(world) && p !in world.plans :: PlanName(p) }

  ghost function MissingBlobs(world: Store): set<Name> { set d | d in NeededBlobs(world) && d !in world.blobs :: BlobName(d) }

  function MissingPacks(world: Store): set<Name> { set d | d in NeededPacks(world) && d !in world.packs :: PackName(d) }

  /** Everything the check reports as missing, given the canonical objects it has marked. */
  ghost function Missing(world: Store, marked: Marks): set<Name> {
    MissingHeads(world) + MissingPoints(world) + MissingInWalks(world) + MissingBehindUnreached(world)
    + MissingPlans(world) + MissingBlobs(world) + MissingPacks(world) + Absent(world.objects, marked)
  }
}
