/** Everything the store keeps, by the directory that holds it and its content address. */
module Names {
  import opened Base
  import opened Canonical

  datatype Name =
    | GenerationName(digest: Digest)
    | PlanName(digest: Digest)
    | BlobName(digest: Digest)
    | PackName(digest: Digest)
    | ManifestName(digest: Digest)
    | TreeName(digest: Digest)
    | SymlinkName(digest: Digest)
    | FileName(digest: Digest)

  ghost function MarkNames(x: Marks): set<Name> {
    (set d | d in x.files :: FileName(d)) + (set d | d in x.symlinks :: SymlinkName(d)) + (set d | d in x.trees :: TreeName(d))
  }

  ghost function KeysOf(objects: CanonicalObjects): Marks {
    Marks(objects.files.Keys, objects.symlinks.Keys, objects.trees.Keys)
  }
}
