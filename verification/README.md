# Malm verification

Malm is a content-addressed deployment store: plans, generations, artifact blobs, packs and canonical
file, symlink and tree objects, kept alive by a catalog of namespace heads. This project models the parts
of it whose correctness is decided by code and spans many functions, and proves it with Dafny.

- **Retention.** `Store`, `Retention`, `RetainedRoots`, `PruneMark`, `Prune`, `RemovalOrder` model a prune:
  the checks it makes, the roots it collects, what it keeps, and the order in which it unlinks the rest.
  `RetentionClosure` shows that the kept entries are the least closed set; `Remnant`, `CrashSafety`,
  `Readmission` and `Rerun` treat a prune that stops between any two unlinks, `Sweeps` and `SweepExact`
  repeated sweeps, with example stores in `Witnesses` and `SweepWitness`.
  `FsckRoots`, `FsckScan`, `FsckMarks` and `FsckAgreement` model the store check, which collects its roots
  independently, and relate the two. `Lineage`, `Inventory` and `InspectionRetention` do the same for
  generation inspection. `PackManifest` is the manifest decoder.
- **Canonical objects.** `Wire`, `CanonicalCodec` and `PackObject` are the strict decoders. `TreeGraph`,
  `TreeWalk`, `TreeClosure`, `TreeStack`, `Loader` and `TreeListing` are the recursive walk, the
  explicit-stack loader with budgets and the inspection walk. `Kahn`, `SymlinkGraph`, `SymlinkCheck` and
  `TreeLookup` are the symlink check, judged against following paths link by link.
- **Archives.** `PayloadReader` reads a declared payload from an unreliable reader, `Ustar` and
  `ArchiveFormat` are the format, `ArchiveTree`, `ArchiveState` and `ArchiveEntries` the tree built entry by
  entry, `ArchiveDecode` the decoder, `ArchiveBuild` turns the result into canonical tree objects, and
  `ArchiveRoundTrip` writes a tree and reads it back.
- **Configuration.** `TypedValues` (schema resolution), `AuthorityGraph` (three-colour walk), `Paths` and
  `Includes` (lexical paths and the include walker) on top of `DepthFirst`.
- `Base`, `Text`, `Names`, `Canonical` and `Graphs` hold shared definitions.

The store directory is a value with one map or set per kind of entry; unlinking is removal from it.
Digests are opaque and hashing is an uninterpreted function. Three checks are parameters (`Env`): a
transition on top of an optional predecessor, the checks left for a generation whose predecessor is gone,
and the ownership projection. Theorems that need a generation accepted with its predecessor to be accepted
without it say so (`Readmission.Coherent`). The hypotheses can be met: `FsckAgreement.UnlistedAdmissible`
and `SweepWitness.PinnedSweepable` give stores that a prune and a sweep accept, and `Prune.NothingRemovedYet` and
`Rerun.AllGarbageRemoved` give crash states of any store. Rejections are modelled in full; where only success matters the
several error messages of one class are one error value.

Where code and documentation differ, the model follows the code, and a lemma with a concrete store shows
the difference:

- The comment on sweeping (`crates/malm-commit/src/retention.rs:241-245`) says that repeated sweeps converge
  on the same retained closure. They do converge and nothing is ever added (`Sweeps.SweepsConverge`,
  `Sweeps.SweepsMonotone`), but one sweep need not be a fixed point, and an interrupted sweep that is
  repeated may remove more than an uninterrupted one (`SweepWitness.OneSweepIsNotEnough`). One sweep is a
  fixed point, and repeating an interrupted one agrees with it, exactly when no plan about to go claims a
  restore point or a pin beyond what the remaining claims retain (`SweepExact.SweepIsFixedPointExactly`).
  Explicit prunes do not have this effect
  (`Rerun.RerunCompletes`).
- A prune inspects the shape of a blob that it removes but not of one that is only pinned, so a sweep may be
  refused over a blob that an earlier sweep kept (`SweepWitness.SecondSweepMayBeRefused`). A later sweep is
  admitted exactly when what it is to remove is in shape and in order (`Sweeps.SweepAgain`).
- A prune keeps the listed artifacts of a surviving plan, while the store check also requires the files of
  the plan's own snapshot, and it sees no pack manifest when the directory of monolithic packs is absent.
  After a successful prune these two, and needed entries that can no longer be read, are the only sources of
  missing-entry findings (`FsckAgreement.CheckAfterPrune`), the exact condition for silence is `FsckAgreement.CheckIsSilent`, and
  both occur (`FsckAgreement.CheckMayComplain`).

Verify everything with `dafny verify dfyconfig.toml`.

## Model

| member | source | states |
|---|---|---|
| RetentionClosure.KeptIsLeast | crates/malm-commit/src/retention.rs:146-368 | what a prune keeps is closed under bounded history, restore points, pins, generation to plan/blobs/trees, plan to blobs/packs/trees, pack to members and tree to children, and is contained in every set closed under them |
| Retention.GarbageMember | crates/malm-commit/src/retention.rs:328-429 | an entry is removed exactly when it is on disk and not kept |
| RetainedRoots.RetainedClosure.CollectClaims | crates/malm-commit/src/retention.rs:580-631 | adds exactly the roots of one head or plan and fails exactly when a restore point is missing or differs |
| RetainedRoots.CollectRoots | crates/malm-commit/src/retention.rs:146-179 | collects the roots of all heads and all plans not requested; fails exactly on a restore point that does not hold |
| RetainedRoots.WalkLineage | crates/malm-commit/src/retention.rs:181-203 | accepts exactly a complete, cycle-free lineage up to its limit and returns exactly its generations |
| RetainedRoots.ReachGenerations | crates/malm-commit/src/retention.rs:181-203 | the generations reached are exactly those within some root's bounded lineage |
| PruneMark.LoadState | crates/malm-commit/src/retention.rs:96-130 | one load under the shared budget succeeds exactly when the closure is readable and valid and its exact cost fits |
| PruneMark.CheckRecords | crates/malm-commit/src/retention.rs:33-145 | all records are read, rebuilt, and every canonical root they name is loadable, or the prune is refused |
| PruneMark.MarkRecords | crates/malm-commit/src/retention.rs:146-267 | reachable generations, needed plans, survivors, blobs and packs are exactly the specified ones; a requested plan that is needed stops the prune |
| PruneMark.CheckKept | crates/malm-commit/src/retention.rs:330-444 | succeeds exactly when everything to be kept is stored with the right lengths, manifests decode, budgets fit and a removal order exists |
| PruneMark.Decide | crates/malm-commit/src/retention.rs:27-444 | a decision is reached exactly when the prune is admissible, and it keeps exactly the specified closure |
| RemovalOrder.OrderGenerationRemovals | crates/malm-commit/src/retention.rs:810-857 | succeeds exactly when unreachable generations form no predecessor cycle; the result lists each once, children first; the counter never underflows |
| RemovalOrder.PredecessorsOutliveChildren | crates/malm-commit/src/retention.rs:462-478 | after any number of removals a remaining generation still has the predecessor it had |
| Prune.RemoveNames | crates/malm-commit/src/retention.rs:1136-1185 | removes exactly a prefix of the names, and stops early only at an unsound entry or when the process ends |
| Prune.PrefixIsCrashState | crates/malm-commit/src/retention.rs:462-564 | every prefix of a schedule in phase order with children first is a crash state |
| Prune.Schedule | crates/malm-commit/src/retention.rs:462-564 | the schedule holds each entry not kept exactly once, phase by phase, generations children first |
| SweepWitness.PinnedSweepable | crates/malm-commit/src/retention.rs:33-444 | a store with a plan and a pinned blob that a sweep accepts |
| FsckAgreement.UnlistedAdmissible | crates/malm-commit/src/retention.rs:33-444 | a store with a surviving plan and a pack that an explicit prune accepts |
| Prune.PruneStore | crates/malm-commit/src/retention.rs:27-566 | refuses exactly what is not admissible and then changes nothing; otherwise the store is the old one without a crash state, and without exactly the garbage when it completes; a dry run counts the same and removes nothing |
| Readmission.Readmitted | crates/malm-commit/src/retention.rs:27-566 | wherever a prune stops, everything the next run is to keep is in order and it keeps no more; it is admitted exactly when what it is to remove can go, which is always so after an explicit request, when it keeps exactly the same |
| Rerun.RerunCompletes | crates/malm-commit/src/retention.rs:33-267 | an explicit prune interrupted after any number of unlinks and repeated for the plans still there ends in the store of the uninterrupted run |
| Rerun.CrashPointSafe | crates/malm-commit/src/retention.rs:229-564 | at every crash point nothing kept is missing, generations have their plans, plans their artifacts, predecessors outlive children, and everything recorded can be loaded |
| Readmission.StillRetainable | crates/malm-commit/src/retention.rs:27-566 | every check that concerns what is kept passes again, at every crash point of explicit prunes and sweeps |
| Sweeps.SweepAgain | crates/malm-commit/src/retention.rs:241-258 | a swept store can be swept again if and only if the blobs and generations that go next are in shape and in order; nothing new is kept |
| Sweeps.SweepsMonotone | crates/malm-commit/src/retention.rs:241-258 | after any number of sweeps, refused ones included, the retained closure is contained in the first one, and the next sweep is admitted exactly when what it removes can go |
| Sweeps.SweepsConverge | crates/malm-commit/src/retention.rs:241-258 | within one round more than there are plans sweeping comes to an end, and everything is settled then exactly when the next sweep would not be refused |
| Sweeps.SafeSweepsSettle | crates/malm-commit/src/retention.rs:241-258 | with all blobs in shape and no predecessor cycle every round is admitted and everything settles |
| Sweeps.SurvivorsIntact | crates/malm-commit/src/retention.rs:167-179 | a plan that survives a sweep finds its restore points, pins and artifacts in place |
| SweepExact.RemnantRetained | crates/malm-commit/src/retention.rs:146-327 | what a sweep keeps of a partly swept store is what the heads and the plans still there retain |
| SweepExact.OneSweepExactly | crates/malm-commit/src/retention.rs:241-258 | one sweep is a fixed point if and only if heads and surviving plans retain all that was kept |
| SweepExact.RepeatsAgreeExactly | crates/malm-commit/src/retention.rs:241-258 | repeating a sweep interrupted anywhere agrees with the uninterrupted one under the same condition and only then |
| SweepExact.ExactlyWhenNothingGoes | crates/malm-commit/src/retention.rs:167-179 | that condition holds if and only if every restore point and pin of a plan about to go is retained by the remaining claims |
| SweepExact.SweepIsFixedPointExactly | crates/malm-commit/src/retention.rs:167-258 | both properties of sweeping hold exactly when no plan about to go claims more than the remaining claims retain |
| SweepWitness.OneSweepIsNotEnough | crates/malm-commit/src/retention.rs:241-258 | an admissible store on which one sweep is not a fixed point, and on which interrupting and repeating removes more |
| SweepWitness.SecondSweepMayBeRefused | crates/malm-commit/src/retention.rs:430-435 | an admissible store on which the second sweep is refused over a blob the first one kept |
| PackManifest.DecodeMembers | crates/malm-commit/src/retention.rs:757-808 | accepts exactly the encodings of valid manifests and returns the members in order |
| PackManifest.ManifestInjective | crates/malm-commit/src/retention.rs:757-808 | a byte string encodes at most one manifest |
| FsckScan.Scan.WalkGenerationRoot | crates/malm-commit/src/inspection.rs:2564-2631 | follows one root and adds exactly what its history lacks |
| FsckScan.Scan.ValidateAuthority | crates/malm-commit/src/inspection.rs:2258-2417 | reports exactly the missing entries of the independently collected roots |
| FsckMarks.MarkListing | crates/malm-commit/src/inspection.rs:2836-2876 | the entries of one tree are marked or stacked, and exactly the absent ones reported |
| FsckMarks.MarkTree | crates/malm-commit/src/inspection.rs:2814-2879 | marking with a visited set terminates on any graph and stays within every closed set |
| FsckMarks.MarkRoots | crates/malm-commit/src/inspection.rs:2768-2879 | the marks are the least closed set above the roots, and exactly the marked objects not stored are reported |
| FsckMarks.CheckMarksWhatIsLoaded | crates/malm-commit/src/inspection.rs:2814-2879 | for valid roots the check marks exactly what the loader reads |
| FsckAgreement.WalkComplete | crates/malm-commit/src/inspection.rs:2564-2631 | along a complete lineage the check misses nothing and reaches nothing beyond it |
| FsckAgreement.PruneCompletes | crates/malm-commit/src/retention.rs:341-444 | a completed prune leaves exactly the kept plans, generations and blobs, all kept objects, and roots that hold |
| FsckAgreement.CheckAfterPrune | crates/malm-commit/src/inspection.rs:2258-2417 | after any successful prune the missing findings are exactly the unlisted snapshot files not kept, the packs hidden by a missing directory, and needed entries that cannot be read |
| FsckAgreement.CheckIsSilent | crates/malm-commit/src/inspection.rs:2986-3052 | the check reports nothing missing if and only if surviving plans' snapshot files are kept, no needed pack is hidden and no needed entry is damaged |
| FsckAgreement.ListedSnapshotsKept | crates/malm-commit/src/inspection.rs:2986-3001 | plans that list their snapshot files as artifacts never lose one |
| FsckAgreement.CheckMayComplain | crates/malm-commit/src/inspection.rs:2009-2048 | an admissible store on which a prune produces both exceptions |
| Lineage.InspectMember | crates/malm-commit/src/inspection.rs:1215-1258 | one chain member is read, charged and rebuilt, with its predecessor unless it is at the floor |
| Lineage.InspectLineage | crates/malm-commit/src/inspection.rs:1194-1266 | succeeds exactly when the chain is cycle-free, every member holds and its exact cost fits; returns the whole chain |
| Inventory.LoadEffectivelyRetained | crates/malm-commit/src/inspection.rs:1120-1192 | loads a generation exactly when the head's history, restore points or pins retain it, with the depth that remains |
| Inventory.ValidateDirect | crates/malm-commit/src/inspection.rs:466-490 | directly retained generations are all validated within the byte limit, or the inventory fails |
| Inventory.InspectInventory | crates/malm-commit/src/inspection.rs:413-512 | succeeds exactly when history and directly retained generations hold within the limits, and returns exactly them |
| Inventory.InventoryIsAuthorised | crates/malm-commit/src/inspection.rs:413-512 | a successful inventory is exactly the set of generations that may be loaded one at a time |
| InspectionRetention.AuthorisedIsKept | crates/malm-commit/src/inspection.rs:1120-1192 | an authorised generation and everything behind it to the granted depth, with its plans, is kept by every prune |
| InspectionRetention.PruneInvisibleToLineage | crates/malm-commit/src/inspection.rs:1194-1266 | the lineage walk to the granted depth has the same outcome before and after a prune |
| InspectionRetention.PruneInvisibleToInventory | crates/malm-commit/src/inspection.rs:413-512 | the inventory survives every prune and has the same outcome before and after it |
| CanonicalCodec.DecodeFile | crates/malm-commit/src/canonical.rs:130-148 | accepts exactly the encodings of files and returns the contents |
| CanonicalCodec.DecodeSymlink | crates/malm-commit/src/canonical.rs:150-168 | accepts exactly the encodings of valid targets |
| CanonicalCodec.DecodeTree | crates/malm-commit/src/canonical.rs:170-258 | accepts exactly the encodings of valid trees and returns the tree encoded |
| CanonicalCodec.TreeInjective | crates/malm-commit/src/canonical.rs:170-258 | different trees have different encodings |
| Wire.Reader.Text | crates/malm-commit/src/canonical.rs:556-562 | takes a length-prefixed text off the front, or proves that none within the limit is there |
| PackObject.Validate | crates/malm-commit/src/pack_object.rs:16-71 | true exactly for the encodings of valid packs under their own digest |
| PackObject.ValidPath | crates/malm-commit/src/pack_object.rs:73-94 | accepts exactly the allowed member paths |
| PackObject.PackInjective | crates/malm-commit/src/pack_object.rs:16-71 | different packs have different encodings |
| PackObject.SizeBoundHolds | crates/malm-commit/src/pack_object.rs:16-30 | the bound on the whole object never rejects a valid pack |
| TreeWalk.WalkState.VisitEntry | crates/malm-commit/src/canonical.rs:301-371 | one path is accepted exactly when all paths so far are acceptable together |
| TreeWalk.WalkState.WalkTree | crates/malm-commit/src/canonical.rs:281-373 | accepts exactly when everything below a directory, together with what was counted before, is acceptable; the ancestor test never decides |
| TreeWalk.ValidateGraph | crates/malm-commit/src/canonical.rs:260-271 | accepts exactly the valid trees |
| TreeWalk.TreeFileBytes | crates/malm-commit/src/canonical.rs:56-87 | on a validated tree the unguarded recursion terminates and equals the byte total of the unfolding |
| TreeGraph.AcceptedWalksAreShort | crates/malm-commit/src/canonical.rs:281-299 | in an accepted graph no directory is its own ancestor and no chain is longer than the depth limit |
| TreeGraph.CycleOverflows | crates/malm-commit/src/canonical.rs:288-299 | a directory cycle produces a path beyond the depth limit |
| SymlinkGraph.AcyclicTerminates | crates/malm-commit/src/canonical.rs:375-427 | without a cycle of target prefixes every lookup through links ends |
| SymlinkGraph.CycleDiverges | crates/malm-commit/src/canonical.rs:375-427 | a cycle of target prefixes gives a lookup that never ends |
| SymlinkGraph.PrefixGraphDecidesTermination | crates/malm-commit/src/canonical.rs:375-427 | the prefix graph is acyclic exactly when every lookup terminates, indirect links included |
| SymlinkCheck.ResolveTargets | crates/malm-commit/src/canonical.rs:379-386 | all targets are resolved exactly when all are safe |
| SymlinkCheck.BuildGraph | crates/malm-commit/src/canonical.rs:386-405 | the adjacency lists and in-degrees are those of the prefix graph |
| Kahn.Drain | crates/malm-commit/src/canonical.rs:406-426 | true exactly when the graph has no cycle |
| Kahn.Release | crates/malm-commit/src/canonical.rs:411-421 | releasing a node keeps every in-degree exact and never underflows |
| SymlinkCheck.ValidateSymlinkGraph | crates/malm-commit/src/canonical.rs:375-442 | accepts exactly safe targets whose prefix graph is acyclic |
| TreeLookup.AcceptedIffFollowable | crates/malm-commit/src/canonical.rs:260-442 | a tree is valid exactly when its graph is acceptable and every path in it can be followed to an end |
| TreeClosure.ClosureIsLeast | crates/malm-commit/src/object_load.rs:229-333 | what the unfolding reaches is the least set closed under children |
| TreeClosure.ValidTreeLocal | crates/malm-commit/src/canonical.rs:260-271 | validity depends on the objects below the root only |
| Loader.LoadBudget.ChargeItem | crates/malm-commit/src/object_load.rs:356-366 | one work item is charged unless the limit is reached |
| Loader.LoadRoot | crates/malm-commit/src/object_load.rs:229-333 | the explicit stack terminates within its budget, loads exactly the closure of one root and charges exactly its work |
| Loader.LoadLinks | crates/malm-commit/src/object_load.rs:334-345 | all links are read and charged once, or the load fails |
| Loader.LoadCanonicalRoots | crates/malm-commit/src/object_load.rs:229-354 | succeeds exactly when the closure is readable, all roots valid and both budgets suffice; holds exactly the closure and charges exactly its cost |
| TreeListing.ListTree | crates/malm-commit/src/inspection.rs:156-307 | the iterative inspection walk lists exactly the unfolded paths of the recursive walk |
| TreeListing.EachPathOnce | crates/malm-commit/src/inspection.rs:156-307 | in the listing every path occurs once |
| PayloadReader.ExactPayloadReader.ChargedRead | crates/malm-archive/src/decoder.rs:215-235 | every attempt is charged, interruptions are retried, and what is returned is the next part of the stream |
| PayloadReader.ExactPayloadReader.ReadExact | crates/malm-archive/src/decoder.rs:172-198 | delivers exactly the next bytes of the payload under any pattern of short reads, and hashes exactly those |
| PayloadReader.ExactPayloadReader.DrainVerifyEnd | crates/malm-archive/src/decoder.rs:200-213 | succeeds only when the stream is exactly the declared length, all of it hashed |
| Ustar.OctalRoundTrip | crates/malm-archive/src/decoder.rs:1212-1260 | a number is read back from its octal field |
| Ustar.OctalBounded | crates/malm-archive/src/decoder.rs:1244-1260 | an octal field of n digits stays below 8 to the n, so the overflow branch is dead |
| Ustar.FieldRoundTrip | crates/malm-archive/src/decoder.rs:1262-1278 | a text is read back from its NUL-padded field |
| Ustar.HeaderRoundTrip | crates/malm-archive/src/decoder.rs:550-657 | every writable header, whatever its ignored fields, is read back as it was |
| ArchiveTree.PlacedAt | crates/malm-archive/src/decoder.rs:813-878 | placing a node changes that node and what is below it and nothing else |
| ArchiveTree.SameTree | crates/malm-archive/src/decoder.rs:443-485 | two trees that show the same nodes are equal |
| ArchiveState.ParseState.EnsureParentDirectory | crates/malm-archive/src/decoder.rs:852-878 | creates exactly the missing parents, each counted, unless a parent is no directory or the limit is reached |
| ArchiveState.ParseState.ReserveLeafPath | crates/malm-archive/src/decoder.rs:784-811 | succeeds exactly when the place is free and there is room for one more entry |
| ArchiveState.ParseState.InsertLeaf | crates/malm-archive/src/decoder.rs:813-829 | adds exactly one node and counts it |
| ArchiveState.ParseState.InsertDirectory | crates/malm-archive/src/decoder.rs:733-757 | adds a directory or makes an implicit one explicit; the entry counter stays the number of nodes |
| ArchiveState.ParseState.AdmitObject | crates/malm-archive/src/decoder.rs:353-387 | stores each object once, charges it once, and refuses a second object with the same digest |
| ArchiveEntries.StepIsAcceptance | crates/malm-archive/src/decoder.rs:659-878 | an entry is accepted exactly when the collection with it is acceptable, and leads to the state described |
| ArchiveEntries.RunIsAcceptance | crates/malm-archive/src/decoder.rs:502-548 | entry by entry the decoder accepts exactly the acceptable collections and builds what they describe |
| ArchiveEntries.OrderDoesNotMatter | crates/malm-archive/src/decoder.rs:659-878 | any permutation of an entry sequence has the same outcome: tree, modes, objects and counters |
| ArchiveEntries.ListingBuildsTree | crates/malm-archive/src/decoder.rs:733-878 | entries that list a tree in any order build that tree |
| ArchiveFormat.PayloadLength | crates/malm-archive/src/decoder.rs:502-731 | a parsed payload is as long as its block-aligned headers, rounded-up bodies and two zero blocks |
| ArchiveFormat.ItemsReadBack | crates/malm-archive/src/decoder.rs:502-731 | every written archive is read back entry by entry |
| ArchiveRoundTrip.TreeReadBack | crates/malm-archive/src/decoder.rs:502-731 | a tree within the limits is read back from every archive that lists it, in any order and with any ignored fields |
| ArchiveRoundTrip.TreeRoundTrip | crates/malm-archive/src/decoder.rs:502-731 | every tree within the limits whose paths split into name and prefix can be written, and decoding returns it with its objects |
| ArchiveDecode.TakeFile | crates/malm-archive/src/decoder.rs:659-731 | reserves, reads body and padding, stores; refused exactly when the entry has no sound body or cannot be taken |
| ArchiveDecode.ParseUstar | crates/malm-archive/src/decoder.rs:502-548 | the block loop computes the parse of the payload bytes, or meets a failing read |
| ArchiveDecode.DecodeArchive | crates/malm-archive/src/decoder.rs:99-131 | the outcome is a function of the bytes unless the reader fails or the read budget runs out; parse errors come only after the whole payload was read and its digest matched |
| ArchiveBuild.Builder.InsertTree | crates/malm-archive/src/decoder.rs:421-436 | stores each tree object once and succeeds exactly when no different one has the digest and the limit suffices |
| ArchiveBuild.Builder.BuildTree | crates/malm-archive/src/decoder.rs:915-960 | succeeds exactly when everything below is well formed, no two tree objects share a digest and the limits suffice; charges exactly the new objects and nodes; the tree object returned lists exactly the children, in byte order, and so on below |
| ArchiveBuild.OneRootTree | crates/malm-archive/src/decoder.rs:880-960 | trees with the same nodes are built into the same tree object, whatever the order of their entries |
| ArchiveBuild.MirrorStays | crates/malm-archive/src/decoder.rs:915-960 | further objects do not disturb a built tree |
| ArchiveBuild.BuiltTreeHasSamePaths | crates/malm-archive/src/decoder.rs:915-960 | the canonical tree has exactly the paths of the nested directories, with the same kinds, modes and contents |
| TypedValues.ValidateValueAt | crates/malm-config/src/rich.rs:972-1016 | accepts exactly values within the depth, text, collection and total limits and adds exactly their node count |
| TypedValues.ChildValidated | crates/malm-config/src/rich.rs:972-1016 | a part of a value within the limits is within the limits |
| TypedValues.ResolveConforms | crates/malm-config/src/rich.rs:1340-1398 | whatever resolution returns conforms to the schema, null only where optional, and is within the limits |
| TypedValues.ConformingIsFixed | crates/malm-config/src/rich.rs:1340-1398 | a conforming value within the limits is returned unchanged |
| TypedValues.ResolvedIsFixed | crates/malm-config/src/rich.rs:1340-1398 | results of resolution, its fixed points and the conforming values within the limits are the same values |
| TypedValues.DefaultsAreFixed | crates/malm-config/src/rich.rs:1300-1322 | the field constructors make defaults that are fixed points |
| TypedValues.ConstructedMeansFixed | crates/malm-config/src/rich.rs:1300-1322 | the defaults that the constructors can make are exactly the fixed points of resolution |
| TypedValues.DefaultsDecide | crates/malm-config/src/rich.rs:1365-1390 | the result of resolving a record is a fixed point exactly when every default that went into it is one |
| TypedValues.UnresolvedDefaultIsNotFixed | crates/malm-config/src/rich.rs:1365-1375 | with a default that bypasses the constructors resolution is not idempotent |
| AuthorityGraph.Visitor.Visit | crates/malm-config/src/rich.rs:440-463 | the three-colour walk finishes everything reachable or finds a cycle |
| AuthorityGraph.ValidateReachability | crates/malm-config/src/rich.rs:428-438 | accepts exactly acyclic graphs in which the root reaches every authority |
| AuthorityGraph.BuildGraph | crates/malm-config/src/rich.rs:284-332 | accepts exactly the captured graphs with distinct names, a root, resolved dependencies, no cycle and nothing unreachable |
| DepthFirst.FinishedReaches | crates/malm-config/src/rich.rs:440-463 | finished nodes contain everything reachable from them |
| DepthFirst.BackEdge | crates/malm-config/src/rich.rs:446-456 | meeting an open node again yields a cycle through it |
| Paths.NormalizeLexical | crates/malm-authoring/src/paths.rs:8-31 | the stack names the place where the path leads |
| Paths.EscapesAbove | crates/malm-authoring/src/paths.rs:8-31 | the number of leading parent components is the greatest height that a prefix reaches above the start |
| Paths.EscapeTest | crates/malm-authoring/src/workspace.rs:499-505 | a normalised relative path starts with a parent component exactly when some prefix leads above the start |
| Includes.EscapeMeans | crates/malm-authoring/src/workspace.rs:495-505 | an include is rejected as escaping exactly when some prefix of its path goes above the source root |
| Includes.Walker.ExpandDocument | crates/malm-authoring/src/workspace.rs:296-374 | expands a document and all it includes, each once, or gives a reason found among the included documents |
| Includes.Walker.ExpandNode | crates/malm-authoring/src/workspace.rs:478-520 | an include is skipped, followed or refused as its target demands |
| Includes.ExpandWorkspace | crates/malm-authoring/src/workspace.rs:296-374 | a successful walk has expanded exactly the include closure, each document once, without cycles and within the limits; a failure has its reason in that closure; where neither the depth nor the count test can fire, success is equivalent to a sound, acyclic closure within the byte limit |

## Left out

- ArchiveDecode.DecodeArchive: stops at the finished nested tree and its leaf objects; the step to canonical tree objects is `ArchiveBuild.Builder.BuildTree`, with digest and encoded size of a tree object as parameters, and the final graph check (`crates/malm-archive/src/decoder.rs:895-904`) rests on `malm_tree`, which is not part of this model.
- Includes.ExpandWorkspace: success is characterised as an if-and-only-if for closures with no chain over the depth limit and fewer documents than the count limit; at these limits the outcome depends on the order in which documents are first met (a repeated include is refused once 64 documents have been expanded), and a failure is explained instead. The same holds for Includes.Walker.ExpandDocument.
- Includes.Walker.ExpandDocument: see the line above; a failure names a reason among the included documents.
- Includes.Walker.ExpandNode: nodes other than includes are opaque apart from the root-only rule; duplicate sections and diagnostics are not modelled.
- FsckScan.Scan.ValidateAuthority: only missing-entry findings are modelled; length, corruption, namespace and ownership findings, the journal (with which a prune refuses to run) and the object and byte limits of the check are not.
- FsckAgreement.CheckAfterPrune: speaks of missing-entry findings only, as the scan it is about.
- FsckAgreement.CheckIsSilent: likewise about missing-entry findings only.
- Prune.PruneStore: within a phase the order of unlinks is left open except for generations; `fsync`, directory handles, locks and owner checks are operating-system behaviour, and an entry out of shape or damaged is a member of `Env`.
- Loader.LoadCanonicalRoots: takes decoded tree objects to have sorted, valid names, which `CanonicalCodec.DecodeTree` guarantees; the same holds for the prune and the listing built on it.
- TypedValues.ResolveConforms: `validate_type_at`, the size and depth limits of schemas themselves, is not modelled; keyed collections are kept as lists by key.
- Transition checks and the ownership projection of `malm_store` are parameters.
- Filesystem access, pinned descriptors, mount tables, command line and rendering.
- KDL parsing, the authoring evaluator, overlays, expressions and transforms.
- SHA-256 and the text form of digests, except where the codecs check it.
- Short identifiers, progress output and error texts.
