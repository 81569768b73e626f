/** Canonical objects: the files, symbolic links and directory trees that the store keeps by digest. */
module Canonical {
  import opened Base
  import opened Text

  const MAX_ENTRIES: nat := 100_000
  const MAX_FILE_BYTES: nat := 256 * 1024 * 1024

  datatype EntryKind =
    | File(digest: Digest, byteLen: nat)
    | Directory(digest: Digest)
    | Symlink(digest: Digest)

  datatype TreeEntry = TreeEntry(name: Segment, mode: nat, kind: EntryKind)

  datatype TreeObject = TreeObject(rootMode: nat, entries: seq<TreeEntry>)

  /** Decoded objects by content address. */
  datatype CanonicalObjects = CanonicalObjects(
    files: map<Digest, Bytes>,
    symlinks: map<Digest, Bytes>,
    trees: map<Digest, TreeObject>)

  const NO_OBJECTS := CanonicalObjects(map[], map[], map[])

  // ----- What strict decoding guarantees

  /** Permission bits of a file: nothing beyond 0o777, and owner-readable. */
  predicate FileMode(mode: nat) { mode < 0x200 && (mode / 0x100) % 2 == 1 }

  /** Permission bits of a directory: nothing beyond 0o777, owner-readable and owner-searchable. */
  predicate DirectoryMode(mode: nat) { mode < 0x200 && (mode / 0x100) % 2 == 1 && (mode / 0x40) % 2 == 1 }

  const SYMLINK_MODE: nat := 0x1FF

  ghost function NamesIn(entries: seq<TreeEntry>): (names: seq<Segment>)
    ensures |names| == |entries|
  {
    seq(|entries|, i requires 0 <= i < |entries| => entries[i].name)
  }

  ghost predicate WellNamed(t: TreeObject) {
    StrictlySorted(NamesIn(t.entries)) && forall i :: 0 <= i < |t.entries| ==> ValidSegment(t.entries[i].name)
  }

  ghost predicate WellNamedTrees(trees: map<Digest, TreeObject>) {
    forall d :: d in trees ==> WellNamed(trees[d])
  }

  /** A set of canonical objects of each kind. */
  datatype Marks = Marks(files: set<Digest>, symlinks: set<Digest>, trees: set<Digest>)

  ghost predicate MarksWithin(a: Marks, b: Marks) {
    a.files <= b.files && a.symlinks <= b.symlinks && a.trees <= b.trees
  }

  ghost predicate Marked(x: Marks, kind: EntryKind) {
    match kind
    case File(digest, _) => digest in x.files
    case Directory(digest) => digest in x.trees
    case Symlink(digest) => digest in x.symlinks
  }

  /** A set of marks that follows every tree it holds to its children. */
  ghost predicate ClosedUnderChildren(trees: map<Digest, TreeObject>, x: Marks) {
    forall t, i :: t in x.trees && t in trees && 0 <= i < |trees[t].entries| ==> Marked(x, trees[t].entries[i].kind)
  }

  /** `x` is the least closed set of marks above `roots`. */
  ghost predicate LeastClosed(trees: map<Digest, TreeObject>, roots: Marks, x: Marks) {
    && MarksWithin(roots, x)
    && ClosedUnderChildren(trees, x)
    && forall y :: MarksWithin(roots, y) && ClosedUnderChildren(trees, y) ==> MarksWithin(x, y)
  }

  lemma LeastClosedUnique(trees: map<Digest, TreeObject>, roots: Marks, x: Marks, y: Marks)
    requires LeastClosed(trees, roots, x) && LeastClosed(trees, roots, y)
    ensures x == y
  {
    assert MarksWithin(x, y) && MarksWithin(y, x);
  }
}
