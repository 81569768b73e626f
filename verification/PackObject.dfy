/** The offline check of a pack object: true exactly for the encodings of valid packs. */
module PackObject {
  import opened Base
  import opened Text
  import opened Wire

  type Hash = Bytes -> Digest

  const ENCODING_VERSION: nat := 1
  const MAX_PACK_TREE_ENTRIES: nat := 100_000
  const MAX_PACK_TREE_BYTES: nat := 1024 * 1024 * 1024
  const MAX_PACK_FILE_BYTES: nat := 256 * 1024 * 1024
  const MAX_PACK_PATH_BYTES: nat := 1024
  const MAX_PACK_PATH_SEGMENTS: nat := 32
  const MAX_PATH_SEGMENT_BYTES: nat := 255
  const MAX_PACK_OBJECT_BYTES: nat := MAX_PACK_TREE_BYTES + MAX_PACK_TREE_ENTRIES * (16 + MAX_PACK_PATH_BYTES) + 64

  // "malm-pack-content\0" and "malm-pack.kdl"
  const DOMAIN: Bytes := [109, 97, 108, 109, 45, 112, 97, 99, 107, 45, 99, 111, 110, 116, 101, 110, 116, 0]
  const MANIFEST: Bytes := [109, 97, 108, 109, 45, 112, 97, 99, 107, 46, 107, 100, 108]

  // ".git", "malm.lock" and ".malm-lock.tmp"
  const GIT: Bytes := [46, 103, 105, 116]
  const LOCK: Bytes := [109, 97, 108, 109, 46, 108, 111, 99, 107]
  const LOCK_STAGING: Bytes := [46, 109, 97, 108, 109, 45, 108, 111, 99, 107, 46, 116, 109, 112]

  datatype PackFile = PackFile(path: Bytes, contents: Bytes)

  predicate SegmentOk(s: Segment) {
    s != [] && |s| <= MAX_PATH_SEGMENT_BYTES && s !in [[DOT], [DOT, DOT], GIT, LOCK, LOCK_STAGING]
  }

  ghost predicate PathOk(path: Bytes) {
    && CleanText(path) && BACKSLASH !in path
    && |Split(path)| <= MAX_PACK_PATH_SEGMENTS
    && forall i :: 0 <= i < |Split(path)| ==> SegmentOk(Split(path)[i])
  }

  ghost predicate FileOk(f: PackFile) {
    1 <= |f.path| <= MAX_PACK_PATH_BYTES && PathOk(f.path) && |f.contents| <= MAX_PACK_FILE_BYTES
  }

  ghost function PathsOf(files: seq<PackFile>): (names: seq<Bytes>)
    ensures |names| == |files|
  {
    seq(|files|, i requires 0 <= i < |files| => files[i].path)
  }

  ghost function TotalBytes(files: seq<PackFile>): nat {
    Weigh(files, (f: PackFile) => |f.contents|)
  }

  ghost predicate FilesOk(files: seq<PackFile>) {
    && (forall f :: f in files ==> FileOk(f))
    && StrictlySorted(PathsOf(files))
    && TotalBytes(files) <= MAX_PACK_TREE_BYTES
  }

  ghost predicate ValidPack(files: seq<PackFile>) {
    FilesOk(files) && |files| <= MAX_PACK_TREE_ENTRIES && MANIFEST in PathsOf(files)
  }

  ghost function EncodeFile(f: PackFile): Bytes
    requires FileOk(f)
  {
    EncodeText(f.path) + EncodeText(f.contents)
  }

  ghost function EncodeFiles(files: seq<PackFile>): Bytes
    requires forall f :: f in files ==> FileOk(f)
  {
    if files == [] then [] else EncodeFile(files[0]) + EncodeFiles(files[1..])
  }

  ghost function PackHeader(count: nat): Bytes
    requires count < U64_END
  {
    Widths();
    DOMAIN + (BigEndian(ENCODING_VERSION, 2) + BigEndian(count, 8))
  }

  ghost function EncodePack(files: seq<PackFile>): Bytes
    requires ValidPack(files)
  {
    PackHeader(|files|) + EncodeFiles(files)
  }

  ghost predicate EncodesPack(bytes: Bytes, files: seq<PackFile>) { ValidPack(files) && EncodePack(files) == bytes }

  // ----- Encodings determine values

  lemma FilePrefix(f: PackFile, x: Bytes, g: PackFile, y: Bytes)
    requires FileOk(f) && FileOk(g) && EncodeFile(f) + x == EncodeFile(g) + y
    ensures f == g && x == y
  {
    hide EncodeText, PathOk;
    assert EncodeFile(f) + x == EncodeText(f.path) + (EncodeText(f.contents) + x);
    assert EncodeFile(g) + y == EncodeText(g.path) + (EncodeText(g.contents) + y);
    TextPrefix(f.path, EncodeText(f.contents) + x, g.path, EncodeText(g.contents) + y);
    TextPrefix(f.contents, x, g.contents, y);
  }

  lemma {:induction false} FilesInjective(a: seq<PackFile>, b: seq<PackFile>)
    requires (forall f :: f in a ==> FileOk(f)) && (forall f :: f in b ==> FileOk(f))
    requires |a| == |b| && EncodeFiles(a) == EncodeFiles(b)
    ensures a == b
  {
    hide FileOk, EncodeFile;
    if a != [] {
      FilePrefix(a[0], EncodeFiles(a[1..]), b[0], EncodeFiles(b[1..]));
      FilesInjective(a[1..], b[1..]);
      assert a == [a[0]] + a[1..] && b == [b[0]] + b[1..];
    }
  }

  lemma HeaderPrefix(m: nat, x: Bytes, n: nat, y: Bytes)
    requires m < U64_END && n < U64_END && PackHeader(m) + x == PackHeader(n) + y
    ensures m == n && x == y
  {
    hide BigEndian, Power256;
    Widths();
    var v, mm, nn := BigEndian(ENCODING_VERSION, 2), BigEndian(m, 8), BigEndian(n, 8);
    assert PackHeader(m) + x == (DOMAIN + v) + (mm + x);
    assert PackHeader(n) + y == (DOMAIN + v) + (nn + y);
    SplitEqual(DOMAIN + v, mm + x, DOMAIN + v, nn + y);
    FixedPrefix(m, n, 8, x, y);
  }

  /** Distinct packs have distinct encodings. */
  lemma PackInjective(a: seq<PackFile>, b: seq<PackFile>)
    requires ValidPack(a) && ValidPack(b) && EncodePack(a) == EncodePack(b)
    ensures a == b
  {
    hide FileOk, EncodeFiles, PackHeader, PathsOf;
    HeaderPrefix(|a|, EncodeFiles(a), |b|, EncodeFiles(b));
    FilesInjective(a, b);
  }

  lemma {:induction false} FilesAppend(a: seq<PackFile>, b: seq<PackFile>)
    requires forall f :: f in a + b ==> FileOk(f)
    requires (forall f :: f in a ==> FileOk(f)) && (forall f :: f in b ==> FileOk(f))
    ensures EncodeFiles(a + b) == EncodeFiles(a) + EncodeFiles(b)
  {
    hide FileOk, EncodeFile;
    if a == [] {
      assert a + b == b;
    } else {
      assert (a + b)[1..] == a[1..] + b;
      FilesAppend(a[1..], b);
    }
  }

  lemma {:induction false} EncodedLength(files: seq<PackFile>)
    requires forall f :: f in files ==> FileOk(f)
    ensures |EncodeFiles(files)| <= |files| * (16 + MAX_PACK_PATH_BYTES) + TotalBytes(files)
  {
    hide PathOk, BigEndian, Power256;
    if files != [] {
      EncodedLength(files[1..]);
      Widths();
      assert |EncodeFile(files[0])| == 16 + |files[0].path| + |files[0].contents|;
      assert |files| * (16 + MAX_PACK_PATH_BYTES) == (|files| - 1) * (16 + MAX_PACK_PATH_BYTES) + (16 + MAX_PACK_PATH_BYTES);
    }
  }

  /** The size bound on the whole object never rejects the encoding of a valid pack. */
  lemma SizeBoundHolds(files: seq<PackFile>)
    requires ValidPack(files)
    ensures |EncodePack(files)| <= MAX_PACK_OBJECT_BYTES
  {
    hide FileOk, EncodeFiles, BigEndian, Power256, PathsOf;
    Widths();
    EncodedLength(files);
    assert |files| * (16 + MAX_PACK_PATH_BYTES) <= MAX_PACK_TREE_ENTRIES * (16 + MAX_PACK_PATH_BYTES);
  }

  // ----- Reading

  method ValidPath(path: Bytes) returns (ok: bool)
    ensures ok <==> PathOk(path)
  {
    if !CleanText(path) || BACKSLASH in path {
      return false;
    }
    var segments := Split(path);
    var count := 0;
    while count < |segments|
      invariant count <= |segments|
      invariant forall i :: 0 <= i < count ==> SegmentOk(segments[i])
    {
      if !SegmentOk(segments[count]) {
        return false;
      }
      count := count + 1;
    }
    ok := count <= MAX_PACK_PATH_SEGMENTS;
  }

  /** Every pack these bytes could encode starts with the files read so far. */
  ghost predicate Follows(bytes: Bytes, count: nat, files: seq<PackFile>, remaining: Bytes) {
    forall p {:trigger EncodesPack(bytes, p)} :: EncodesPack(bytes, p) ==>
      |p| == count && files <= p && EncodeFiles(p[|files|..]) == remaining
  }

  lemma FollowsHeader(bytes: Bytes, count: nat, remaining: Bytes)
    requires count < U64_END && bytes == PackHeader(count) + remaining
    ensures Follows(bytes, count, [], remaining)
  {
    hide PackHeader, FileOk, EncodeFiles, PathsOf;
    forall p | EncodesPack(bytes, p) ensures |p| == count && EncodeFiles(p[0..]) == remaining {
      HeaderPrefix(count, remaining, |p|, EncodeFiles(p));
      assert p[0..] == p;
    }
  }

  lemma FollowsFile(bytes: Bytes, count: nat, files: seq<PackFile>, before: Bytes, f: PackFile, after: Bytes)
    requires Follows(bytes, count, files, before) && |files| < count
    requires FileOk(f) && before == EncodeFile(f) + after
    ensures Follows(bytes, count, files + [f], after)
  {
    hide FileOk, EncodeFile, EncodePack, PathsOf;
    var i := |files|;
    forall p | EncodesPack(bytes, p) ensures |p| == count && files + [f] <= p && EncodeFiles(p[i + 1..]) == after {
      assert p[i..][0] == p[i] && p[i..][1..] == p[i + 1..];
      assert p[i] in p;
      FilePrefix(f, after, p[i], EncodeFiles(p[i + 1..]));
    }
  }

  lemma FollowsUnreadable(bytes: Bytes, count: nat, files: seq<PackFile>, before: Bytes)
    requires Follows(bytes, count, files, before) && |files| < count
    requires forall f, rest :: FileOk(f) ==> before != EncodeFile(f) + rest
    ensures forall p :: !EncodesPack(bytes, p)
  {
    forall p ensures !EncodesPack(bytes, p) {
      if EncodesPack(bytes, p) {
        FileAhead(bytes, count, files, before, p);
      }
    }
  }

  /** What is left to read starts with the next file of every pack that the bytes could encode. */
  lemma FileAhead(bytes: Bytes, count: nat, files: seq<PackFile>, before: Bytes, p: seq<PackFile>)
    requires Follows(bytes, count, files, before) && |files| < count && EncodesPack(bytes, p)
    ensures |p| == count && FileOk(p[|files|]) && before == EncodeFile(p[|files|]) + EncodeFiles(p[|files| + 1..])
  {
    hide FileOk, EncodeFile, EncodePack, PathsOf;
    var i := |files|;
    assert p[i..][0] == p[i] && p[i..][1..] == p[i + 1..];
    assert p[i] in p;
  }

  lemma FilesOkPrefix(files: seq<PackFile>, n: nat)
    requires FilesOk(files) && n <= |files|
    ensures FilesOk(files[..n])
  {
    hide FileOk;
    assert files == files[..n] + files[n..];
    WeighAppend(files[..n], files[n..], (f: PackFile) => |f.contents|);
    var names := PathsOf(files);
    forall i | 0 <= i < n - 1 ensures Before(PathsOf(files[..n])[i], PathsOf(files[..n])[i + 1]) {
      assert Before(names[i], names[i + 1]);
    }
  }

  lemma FollowsInvalid(bytes: Bytes, count: nat, files: seq<PackFile>, remaining: Bytes)
    requires Follows(bytes, count, files, remaining) && !FilesOk(files)
    ensures forall p :: !EncodesPack(bytes, p)
  {
    hide FileOk, EncodeFiles, EncodePack, PathsOf;
    forall p ensures !EncodesPack(bytes, p) {
      if EncodesPack(bytes, p) {
        FilesSoFar(bytes, count, files, remaining, p);
      }
    }
  }

  lemma FilesSoFar(bytes: Bytes, count: nat, files: seq<PackFile>, remaining: Bytes, p: seq<PackFile>)
    requires Follows(bytes, count, files, remaining) && EncodesPack(bytes, p)
    ensures FilesOk(files)
  {
    hide FileOk, EncodeFiles, EncodePack, PathsOf, FilesOk;
    FilesOkPrefix(p, |files|);
    assert p[..|files|] == files;
  }

  lemma OkWithOneMore(files: seq<PackFile>, f: PackFile)
    requires FilesOk(files) && FileOk(f)
    ensures TotalBytes(files + [f]) == TotalBytes(files) + |f.contents|
    ensures FilesOk(files + [f]) <==>
      (files != [] ==> Before(files[|files| - 1].path, f.path)) && TotalBytes(files + [f]) <= MAX_PACK_TREE_BYTES
  {
    hide FileOk;
    WeighAppend(files, [f], (g: PackFile) => |g.contents|);
    assert [f][1..] == [];
    var names, more, n := PathsOf(files), PathsOf(files + [f]), |files|;
    if n > 0 {
      assert more[n - 1] == files[n - 1].path && more[n - 1 + 1] == f.path;
      assert forall i :: 0 <= i < n ==> more[i] == names[i];
      if Before(files[n - 1].path, f.path) {
        forall i | 0 <= i < n ensures Before(more[i], more[i + 1]) {
          if i < n - 1 {
            assert Before(names[i], names[i + 1]);
          }
        }
      }
    }
  }

  /** One file, or proof that none is at the front of the stream.  The byte total is checked between
      the two halves of the file, as its length is known before its contents are read. */
  method ReadFile(reader: Reader, total: nat) returns (r: Option<PackFile>)
    modifies reader
    ensures r.Some? ==> FileOk(r.value) && old(reader.remaining) == EncodeFile(r.value) + reader.remaining
    ensures r.Some? ==> total + |r.value.contents| <= MAX_PACK_TREE_BYTES
    ensures r.None? ==> forall f, rest :: FileOk(f) && total + |f.contents| <= MAX_PACK_TREE_BYTES ==> old(reader.remaining) != EncodeFile(f) + rest
  {
    hide EncodeText, PathOk;
    ghost var start := reader.remaining;
    var path := reader.Text(MAX_PACK_PATH_BYTES);
    forall f, rest | FileOk(f) && start == EncodeFile(f) + rest
      ensures path.Some? && f.path == path.value && reader.remaining == EncodeText(f.contents) + rest
    {
      assert start == EncodeText(f.path) + (EncodeText(f.contents) + rest);
      TextPrefix(path.value, reader.remaining, f.path, EncodeText(f.contents) + rest);
    }
    if path.None? || path.value == [] {
      return None;
    }
    var pathOk := ValidPath(path.value);
    if !pathOk {
      return None;
    }
    ghost var tail := reader.remaining;
    var contents := reader.Text(MAX_PACK_FILE_BYTES);
    forall f, rest | FileOk(f) && start == EncodeFile(f) + rest ensures contents.Some? && f.contents == contents.value {
      TextPrefix(contents.value, reader.remaining, f.contents, rest);
    }
    if contents.None? || total + |contents.value| > MAX_PACK_TREE_BYTES {
      return None;
    }
    assert start == EncodeText(path.value) + (EncodeText(contents.value) + reader.remaining);
    r := Some(PackFile(path.value, contents.value));
  }

  ghost predicate Unread(bytes: Bytes, header: Bytes, files: seq<PackFile>, remaining: Bytes) {
    (forall f :: f in files ==> FileOk(f)) && bytes == header + (EncodeFiles(files) + remaining)
  }

  lemma UnreadStep(bytes: Bytes, header: Bytes, files: seq<PackFile>, before: Bytes, f: PackFile, after: Bytes)
    requires Unread(bytes, header, files, before) && FileOk(f) && before == EncodeFile(f) + after
    ensures Unread(bytes, header, files + [f], after)
  {
    hide FileOk, EncodeFile;
    assert [f][1..] == [];
    assert EncodeFiles([f]) == EncodeFile(f);
    FilesAppend(files, [f]);
    assert EncodeFiles(files) + before == EncodeFiles(files + [f]) + after;
  }

  lemma AllRead(bytes: Bytes, files: seq<PackFile>, remaining: Bytes, found: bool)
    requires |files| <= MAX_PACK_TREE_ENTRIES && FilesOk(files) && (found <==> MANIFEST in PathsOf(files))
    requires Unread(bytes, PackHeader(|files|), files, remaining) && Follows(bytes, |files|, files, remaining)
    ensures found && remaining == [] <==> exists p :: EncodesPack(bytes, p)
  {
    hide FileOk, PackHeader, PathsOf;
    if found && remaining == [] {
      assert EncodeFiles(files) + remaining == EncodeFiles(files);
      assert EncodesPack(bytes, files);
    }
    forall p | EncodesPack(bytes, p) ensures found && remaining == [] {
      assert p == files;
      assert p[|files|..] == [];
    }
  }

  lemma HeaderNeeded(bytes: Bytes, p: seq<PackFile>) returns (rest: Bytes)
    requires EncodesPack(bytes, p)
    ensures bytes == DOMAIN + rest && |rest| >= 10 && |bytes| <= MAX_PACK_OBJECT_BYTES
    ensures |p| <= MAX_PACK_TREE_ENTRIES && rest == BigEndian(ENCODING_VERSION, 2) + rest[2..]
  {
    hide BigEndian, Power256, EncodeFiles, FileOk, PathsOf;
    Widths();
    SizeBoundHolds(p);
    rest := BigEndian(ENCODING_VERSION, 2) + (BigEndian(|p|, 8) + EncodeFiles(p));
  }

  /** True exactly for the encodings of valid packs stored under their own digest. */
  method Validate(hash: Hash, bytes: Bytes, expected: Digest) returns (ok: bool)
    ensures ok <==> hash(bytes) == expected && exists p :: EncodesPack(bytes, p)
  {
    hide FileOk, FilesOk, EncodePack, Follows, BigEndian, Power256, EncodesPack, TotalBytes;
    Widths();
    forall p | EncodesPack(bytes, p) ensures |bytes| <= MAX_PACK_OBJECT_BYTES {
      var rest := HeaderNeeded(bytes, p);
    }
    if |bytes| > MAX_PACK_OBJECT_BYTES || hash(bytes) != expected {
      return false;
    }
    var count := ReadHeader(bytes);
    if count.None? || count.value.0 > MAX_PACK_TREE_ENTRIES {
      return false;
    }
    var n := count.value.0;
    var reader := new Reader(count.value.1);
    var files, total, found := [], 0, false;
    NothingRead(bytes, n);
    while |files| < n
      invariant |files| <= n && FilesOk(files) && total == TotalBytes(files)
      invariant found <==> MANIFEST in PathsOf(files)
      invariant Follows(bytes, n, files, reader.remaining) && Unread(bytes, PackHeader(n), files, reader.remaining)
      decreases n - |files|
    {
      ghost var before := reader.remaining;
      var f := ReadFile(reader, total);
      if f.None? {
        TotalBroken(bytes, n, files, before, total);
        return false;
      }
      FollowsFile(bytes, n, files, before, f.value, reader.remaining);
      OkWithOneMore(files, f.value);
      UnreadStep(bytes, PackHeader(n), files, before, f.value, reader.remaining);
      if files != [] && !Before(files[|files| - 1].path, f.value.path) {
        FollowsInvalid(bytes, n, files + [f.value], reader.remaining);
        return false;
      }
      FoundWithOneMore(files, f.value);
      found := found || f.value.path == MANIFEST;
      files, total := files + [f.value], total + |f.value.contents|;
    }
    AllRead(bytes, files, reader.remaining, found);
    ok := found && reader.remaining == [];
  }

  lemma FoundWithOneMore(files: seq<PackFile>, f: PackFile)
    ensures MANIFEST in PathsOf(files + [f]) <==> MANIFEST in PathsOf(files) || f.path == MANIFEST
  {
    assert PathsOf(files + [f]) == PathsOf(files) + [f.path];
  }

  lemma TotalBroken(bytes: Bytes, count: nat, files: seq<PackFile>, before: Bytes, total: nat)
    requires Follows(bytes, count, files, before) && |files| < count && FilesOk(files) && total == TotalBytes(files)
    requires forall f, rest :: FileOk(f) && total + |f.contents| <= MAX_PACK_TREE_BYTES ==> before != EncodeFile(f) + rest
    ensures forall p :: !EncodesPack(bytes, p)
  {
    hide FileOk, EncodeFile, EncodePack, PathsOf, TotalBytes;
    var i := |files|;
    forall p ensures !EncodesPack(bytes, p) {
      if EncodesPack(bytes, p) {
        assert p[i..][0] == p[i] && p[i..][1..] == p[i + 1..];
        assert p[i] in p;
        assert before == EncodeFile(p[i]) + EncodeFiles(p[i + 1..]);
        FilesOkPrefix(p, i + 1);
        assert p[..i + 1] == files + [p[i]];
        OkWithOneMore(files, p[i]);
      }
    }
  }

  lemma NothingRead(bytes: Bytes, n: nat)
    ensures FilesOk([]) && TotalBytes([]) == 0 && PathsOf([]) == [] && EncodeFiles([]) == []
  {
  }

  /** Domain, version and count, with what follows them. */
  method ReadHeader(bytes: Bytes) returns (r: Option<(nat, Bytes)>)
    ensures r.Some? ==> r.value.0 < U64_END && bytes == PackHeader(r.value.0) + r.value.1
    ensures r.Some? ==> Follows(bytes, r.value.0, [], r.value.1) && Unread(bytes, PackHeader(r.value.0), [], r.value.1)
    ensures r.None? || r.value.0 > MAX_PACK_TREE_ENTRIES ==> forall p :: !EncodesPack(bytes, p)
  {
    hide FileOk, FilesOk, EncodePack, Follows, BigEndian, Power256, EncodesPack;
    Widths();
    var reader := new Reader(bytes);
    var ok := reader.Expect(DOMAIN);
    var version, count := None, None;
    ghost var tail := reader.remaining;
    if ok {
      version := reader.Fixed(2);
      if version == Some(ENCODING_VERSION) {
        count := reader.Fixed(8);
      }
    }
    if count.None? {
      forall p ensures !EncodesPack(bytes, p) {
        if EncodesPack(bytes, p) {
          var rest := HeaderNeeded(bytes, p);
          SplitEqual(DOMAIN, tail, DOMAIN, rest);
          if version.Some? {
            FixedPrefix(version.value, ENCODING_VERSION, 2, reader.remaining, rest[2..]);
          }
        }
      }
      return None;
    }
    assert bytes == PackHeader(count.value) + reader.remaining;
    FollowsHeader(bytes, count.value, reader.remaining);
    CountDecides(bytes, count.value, reader.remaining);
    NothingRead(bytes, count.value);
    assert [] + reader.remaining == reader.remaining;
    r := Some((count.value, reader.remaining));
  }

  lemma CountDecides(bytes: Bytes, count: nat, remaining: Bytes)
    requires Follows(bytes, count, [], remaining)
    ensures count > MAX_PACK_TREE_ENTRIES ==> forall p :: !EncodesPack(bytes, p)
  {
  }
}
