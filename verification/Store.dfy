/** The store on disk: immutable records and objects under their content addresses, and the catalog of
    namespace heads. */
module Store {
  import opened Base
  import opened Text
  import opened Canonical
  import opened Names

  type PlanId = Digest
  type Namespace = Bytes

  datatype TrackedRoot = TrackedRoot(rootTree: Digest, source: Bytes)

  datatype RestorePoint = RestorePoint(
    generation: Digest, namespace: Namespace, lifecycle: nat, snapshotDigest: Digest, trackedRoot: Option<TrackedRoot>)

  datatype Pin =
    | PinPlan(plan: PlanId)
    | PinGeneration(digest: Digest)
    | PinBlob(digest: Digest)
    | PinPack(digest: Digest)
    | PinFile(digest: Digest)
    | PinSymlink(digest: Digest)
    | PinTree(digest: Digest)

  const MAX_HISTORY: nat := 65536

  type HistoryLimit = n: nat | 1 <= n <= MAX_HISTORY witness 1

  /** What a plan or a generation asks the store to retain. */
  datatype Authority = Authority(history: HistoryLimit, restorePoints: seq<RestorePoint>, pins: seq<Pin>)

  datatype FileRef = FileRef(digest: Digest, byteLen: nat)

  datatype TargetState =
    | FileTarget(file: Option<FileRef>)
    | DirectoryTarget
    | SymlinkTarget(link: Option<Digest>)
    | TreeTarget(tree: Option<Digest>)

  datatype Artifact = Artifact(digest: Digest, byteLen: nat)

  datatype PlanInput = PlanInput(fromSource: bool, name: Bytes, digest: Digest)

  datatype Transform = Component(packContent: Digest) | BuiltIn

  datatype Plan = Plan(
    namespace: Namespace, expectedHead: Option<Digest>, lifecycle: nat, restorePoint: Option<RestorePoint>,
    authority: Authority, trackedRoot: Option<TrackedRoot>, targets: seq<TargetState>, snapshotDigest: Digest,
    artifacts: seq<Artifact>, inputs: seq<PlanInput>, transforms: seq<Transform>)

  datatype Generation = Generation(
    namespace: Namespace, planId: PlanId, previous: Option<Digest>, lifecycle: nat, restorePoint: Option<RestorePoint>,
    authority: Authority, trackedRoot: Option<TrackedRoot>, targets: seq<TargetState>, snapshotDigest: Digest,
    artifacts: seq<Digest>)

  datatype Member = Member(blob: Digest, byteLen: nat)

  /** A deduplicated pack: the blobs it is assembled from. */
  datatype Manifest = Manifest(members: seq<Member>)

  datatype Head = Head(namespace: Namespace, generation: Digest)

  datatype Store = Store(
    catalog: seq<Head>,
    generations: map<Digest, Generation>,
    plans: map<PlanId, Plan>,
    blobs: set<Digest>,
    packs: set<Digest>,
    manifests: map<Digest, Manifest>,
    objects: CanonicalObjects)

  /** What removal never changes: stored sizes; the entries that are not owned regular files within the
      size limit of their directory; those whose bytes do not decode or hash to their name; whether the
      directory of monolithic packs exists; and three checks whose inside this model does not look at:
      a transition from an optional predecessor, the checks left for a generation whose predecessor is
      gone, and the projection of target ownership from the selected heads. */
  datatype Env = Env(
    sizes: Name -> nat,
    misshapen: set<Name>,
    damaged: set<Name>,
    packDirectory: bool,
    transition: (Option<Generation>, Plan) -> bool,
    retained: Plan -> bool,
    projection: seq<(Namespace, Generation)> -> bool)

  /** Entries that can be read and decoded. */
  predicate Sound(env: Env, n: Name) { n !in env.misshapen && n !in env.damaged }

  // ----- Names on disk and their removal

  ghost function NamesOf(s: Store): set<Name> {
    (set d | d in s.generations :: GenerationName(d))
    + (set d | d in s.plans :: PlanName(d))
    + (set d | d in s.blobs :: BlobName(d))
    + (set d | d in s.packs :: PackName(d))
    + (set d | d in s.manifests :: ManifestName(d))
    + MarkNames(KeysOf(s.objects))
  }

  ghost predicate OnDisk(s: Store, n: Name) {
    match n
    case GenerationName(d) => d in s.generations
    case PlanName(d) => d in s.plans
    case BlobName(d) => d in s.blobs
    case PackName(d) => d in s.packs
    case ManifestName(d) => d in s.manifests
    case TreeName(d) => d in s.objects.trees
    case SymlinkName(d) => d in s.objects.symlinks
    case FileName(d) => d in s.objects.files
  }

  lemma NamesOfMember(s: Store, n: Name)
    ensures n in NamesOf(s) <==> OnDisk(s, n)
  {
  }

  /** The store after the entries of `r` have been unlinked. */
  ghost function Without(s: Store, r: set<Name>): Store {
    s.(generations := map d | d in s.generations && GenerationName(d) !in r :: s.generations[d],
       plans := map d | d in s.plans && PlanName(d) !in r :: s.plans[d],
       blobs := (set d | d in s.blobs && BlobName(d) !in r),
       packs := (set d | d in s.packs && PackName(d) !in r),
       manifests := map d | d in s.manifests && ManifestName(d) !in r :: s.manifests[d],
       objects := CanonicalObjects(
         map d | d in s.objects.files && FileName(d) !in r :: s.objects.files[d],
         map d | d in s.objects.symlinks && SymlinkName(d) !in r :: s.objects.symlinks[d],
         map d | d in s.objects.trees && TreeName(d) !in r :: s.objects.trees[d]))
  }

  lemma OnDiskWithout(s: Store, r: set<Name>, n: Name)
    ensures OnDisk(Without(s, r), n) <==> OnDisk(s, n) && n !in r
  {
  }

  lemma NamesWithout(s: Store, r: set<Name>)
    ensures NamesOf(Without(s, r)) == NamesOf(s) - r
  {
    hide NamesOf, Without, OnDisk;
    forall n ensures n in NamesOf(Without(s, r)) <==> n in NamesOf(s) - r {
      NamesOfMember(Without(s, r), n);
      NamesOfMember(s, n);
      OnDiskWithout(s, r, n);
    }
  }

  lemma WithoutTwice(s: Store, r: set<Name>, q: set<Name>)
    ensures Without(Without(s, r), q) == Without(s, r + q)
  {
    var a, b := Without(Without(s, r), q), Without(s, r + q);
    assert a.generations == b.generations && a.plans == b.plans && a.manifests == b.manifests;
    assert a.objects.files == b.objects.files && a.objects.symlinks == b.objects.symlinks && a.objects.trees == b.objects.trees;
  }

  lemma WithoutNothing(s: Store)
    ensures Without(s, {}) == s
  {
    var t := Without(s, {});
    assert t.generations == s.generations && t.plans == s.plans && t.manifests == s.manifests;
    assert t.objects.files == s.objects.files && t.objects.symlinks == s.objects.symlinks && t.objects.trees == s.objects.trees;
  }

  // ----- What records refer to

  // "pack:"
  const PACK_PREFIX: Bytes := [112, 97, 99, 107, 58]

  function PackRoots(p: Plan): set<Digest> {
    (set i | i in p.inputs && i.fromSource && PACK_PREFIX <= i.name :: i.digest)
    + (set t | t in p.transforms && t.Component? :: t.packContent)
  }

  function ArtifactBlobs(p: Plan): set<Digest> { set a | a in p.artifacts :: a.digest }

  function FileBlobs(targets: seq<TargetState>): set<Digest> {
    set t | t in targets && t.FileTarget? && t.file.Some? :: t.file.value.digest
  }

  function TreeRoots(targets: seq<TargetState>, tracked: Option<TrackedRoot>): set<Digest> {
    (set t | t in targets && t.TreeTarget? && t.tree.Some? :: t.tree.value)
    + (if tracked.Some? then {tracked.value.rootTree} else {})
  }

  function LinkRoots(targets: seq<TargetState>): set<Digest> {
    set t | t in targets && t.SymlinkTarget? && t.link.Some? :: t.link.value
  }

  /** The generation that a plan produces on top of a predecessor. */
  function Produced(planId: PlanId, previous: Option<Digest>, p: Plan): Generation {
    Generation(p.namespace, planId, previous, p.lifecycle, p.restorePoint, p.authority, p.trackedRoot, p.targets,
      p.snapshotDigest, seq(|p.artifacts|, i requires 0 <= i < |p.artifacts| => p.artifacts[i].digest))
  }

  predicate PointMatches(point: RestorePoint, digest: Digest, g: Generation) {
    point.generation == digest && point.namespace == g.namespace && point.lifecycle == g.lifecycle
    && point.snapshotDigest == g.snapshotDigest && point.trackedRoot == g.trackedRoot
  }

  /** `g` is what its plan produces on top of the given predecessor. */
  predicate TransitionHolds(env: Env, g: Generation, p: Plan, previous: Option<Generation>) {
    && g == Produced(g.planId, g.previous, p) && p.expectedHead == g.previous
    && (g.previous.Some? <==> previous.Some?)
    && (previous.Some? ==> previous.value.namespace == p.namespace)
    && env.transition(previous, p)
  }

  /** `g` is what its plan produces, as far as can be told without its predecessor. */
  predicate FloorHolds(env: Env, g: Generation, p: Plan) {
    g == Produced(g.planId, g.previous, p) && p.expectedHead == g.previous && env.retained(p)
  }
}
