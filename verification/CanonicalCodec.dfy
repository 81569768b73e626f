/** The strict encodings of canonical objects.  Each decoder accepts exactly the encodings of valid
    values and returns the value encoded, so every object has one legal byte string and conversely. */
module CanonicalCodec {
  import opened Base
  import opened Text
  import opened Wire
  import opened Canonical
  import SymlinkGraph

  type Issue = SymlinkGraph.Issue
  type Hash = Bytes -> Digest

  const VERSION: nat := 1
  const MAX_SYMLINK_BYTES: nat := 4096
  const DIGEST_BYTES: nat := 71

  // "malm-file-object\0", "malm-symlink-object\0", "malm-tree-object\0"
  const FILE_DOMAIN: Bytes := [109, 97, 108, 109, 45, 102, 105, 108, 101, 45, 111, 98, 106, 101, 99, 116, 0]
  const SYMLINK_DOMAIN: Bytes := [109, 97, 108, 109, 45, 115, 121, 109, 108, 105, 110, 107, 45, 111, 98, 106, 101, 99, 116, 0]
  const TREE_DOMAIN: Bytes := [109, 97, 108, 109, 45, 116, 114, 101, 101, 45, 111, 98, 106, 101, 99, 116, 0]

  /** "sha256-" and 64 lowercase hexadecimal digits. */
  predicate ValidDigest(d: Digest) {
    |d.text| == DIGEST_BYTES && d.text[..7] == [115, 104, 97, 50, 53, 54, 45]
    && forall i :: 7 <= i < DIGEST_BYTES ==> (48 <= d.text[i] <= 57 || 97 <= d.text[i] <= 102)
  }

  function ObjectHeader(domain: Bytes): Bytes {
    Widths();
    domain + BigEndian(VERSION, 2)
  }

  // ----- Files and symbolic links

  function EncodeFile(contents: Bytes): Bytes
    requires |contents| <= MAX_FILE_BYTES
  {
    ObjectHeader(FILE_DOMAIN) + EncodeText(contents)
  }

  predicate ValidTarget(target: Bytes) { target != [] && |target| <= MAX_SYMLINK_BYTES && CleanText(target) }

  function EncodeSymlink(target: Bytes): Bytes
    requires |target| <= MAX_SYMLINK_BYTES
  {
    ObjectHeader(SYMLINK_DOMAIN) + EncodeText(target)
  }

  function EmptyFileDigest(hash: Hash): Digest { hash(EncodeFile([])) }

  // ----- Trees

  function Tag(kind: EntryKind): byte {
    match kind
    case File(_, _) => 0
    case Directory(_) => 1
    case Symlink(_) => 2
  }

  /** What strict decoding asks of one entry on its own. */
  predicate ValidEntry(hash: Hash, e: TreeEntry) {
    && ValidSegment(e.name) && ValidDigest(e.kind.digest)
    && match e.kind
       case File(digest, byteLen) =>
         FileMode(e.mode) && byteLen <= MAX_FILE_BYTES && (byteLen == 0 ==> digest == EmptyFileDigest(hash))
       case Directory(_) => DirectoryMode(e.mode)
       case Symlink(_) => e.mode == SYMLINK_MODE
  }

  function EncodeLength(kind: EntryKind): Bytes
    requires kind.File? ==> kind.byteLen <= MAX_FILE_BYTES
  {
    Widths();
    if kind.File? then BigEndian(kind.byteLen, 8) else []
  }

  /** The part of an entry after its name. */
  function EncodeEntryTail(e: TreeEntry): Bytes
    requires e.mode < 0x1_0000_0000 && |e.kind.digest.text| <= DIGEST_BYTES
    requires e.kind.File? ==> e.kind.byteLen <= MAX_FILE_BYTES
  {
    Widths();
    BigEndian(Tag(e.kind), 1) + (BigEndian(e.mode, 4) + (EncodeText(e.kind.digest.text) + EncodeLength(e.kind)))
  }

  function EncodeEntry(hash: Hash, e: TreeEntry): Bytes
    requires ValidEntry(hash, e)
  {
    EncodeText(e.name) + EncodeEntryTail(e)
  }

  function EncodeEntries(hash: Hash, entries: seq<TreeEntry>): Bytes
    requires forall e :: e in entries ==> ValidEntry(hash, e)
  {
    if entries == [] then [] else EncodeEntry(hash, entries[0]) + EncodeEntries(hash, entries[1..])
  }

  ghost function AggregateBytes(entries: seq<TreeEntry>): nat {
    Weigh(entries, (e: TreeEntry) => if e.kind.File? then e.kind.byteLen else 0)
  }

  ghost predicate LengthsAgree(entries: seq<TreeEntry>) {
    forall i, j :: (0 <= i < j < |entries| && entries[i].kind.File? && entries[j].kind.File?
      && entries[i].kind.digest == entries[j].kind.digest) ==> entries[i].kind.byteLen == entries[j].kind.byteLen
  }

  ghost predicate ValidEntries(hash: Hash, entries: seq<TreeEntry>) {
    && (forall e :: e in entries ==> ValidEntry(hash, e))
    && StrictlySorted(NamesIn(entries))
    && AggregateBytes(entries) <= MAX_FILE_BYTES
    && LengthsAgree(entries)
  }

  ghost predicate ValidTreeObject(hash: Hash, t: TreeObject) {
    DirectoryMode(t.rootMode) && |t.entries| <= MAX_ENTRIES && ValidEntries(hash, t.entries)
  }

  function TreeHeader(rootMode: nat, count: nat): Bytes
    requires rootMode < 0x1_0000_0000 && count < U64_END
  {
    Widths();
    ObjectHeader(TREE_DOMAIN) + (BigEndian(rootMode, 4) + BigEndian(count, 8))
  }

  ghost function EncodeTree(hash: Hash, t: TreeObject): Bytes
    requires ValidTreeObject(hash, t)
  {
    TreeHeader(t.rootMode, |t.entries|) + EncodeEntries(hash, t.entries)
  }

  // ----- Encodings determine values

  lemma EntryTailPrefix(e: TreeEntry, x: Bytes, f: TreeEntry, y: Bytes)
    requires e.mode < 0x1_0000_0000 && |e.kind.digest.text| <= DIGEST_BYTES && (e.kind.File? ==> e.kind.byteLen <= MAX_FILE_BYTES)
    requires f.mode < 0x1_0000_0000 && |f.kind.digest.text| <= DIGEST_BYTES && (f.kind.File? ==> f.kind.byteLen <= MAX_FILE_BYTES)
    requires EncodeEntryTail(e) + x == EncodeEntryTail(f) + y
    ensures e.mode == f.mode && e.kind == f.kind && x == y
  {
    hide BigEndian, Power256, EncodeText;
    Widths();
    var ed, fd := EncodeText(e.kind.digest.text), EncodeText(f.kind.digest.text);
    var el, fl := EncodeLength(e.kind), EncodeLength(f.kind);
    var em, fm := BigEndian(e.mode, 4), BigEndian(f.mode, 4);
    assert EncodeEntryTail(e) + x == BigEndian(Tag(e.kind), 1) + (em + (ed + (el + x)));
    assert EncodeEntryTail(f) + y == BigEndian(Tag(f.kind), 1) + (fm + (fd + (fl + y)));
    FixedPrefix(Tag(e.kind), Tag(f.kind), 1, em + (ed + (el + x)), fm + (fd + (fl + y)));
    FixedPrefix(e.mode, f.mode, 4, ed + (el + x), fd + (fl + y));
    TextPrefix(e.kind.digest.text, el + x, f.kind.digest.text, fl + y);
    if e.kind.File? {
      FixedPrefix(e.kind.byteLen, f.kind.byteLen, 8, x, y);
    } else {
      assert el + x == x && fl + y == y;
    }
    assert e.kind.digest == f.kind.digest;
  }

  lemma EntryPrefix(hash: Hash, e: TreeEntry, x: Bytes, f: TreeEntry, y: Bytes)
    requires ValidEntry(hash, e) && ValidEntry(hash, f)
    requires EncodeEntry(hash, e) + x == EncodeEntry(hash, f) + y
    ensures e == f && x == y
  {
    hide EncodeText, EncodeEntryTail, ValidDigest, CleanText;
    EntryLimits(hash, e);
    EntryLimits(hash, f);
    assert EncodeEntry(hash, e) + x == EncodeText(e.name) + (EncodeEntryTail(e) + x);
    assert EncodeEntry(hash, f) + y == EncodeText(f.name) + (EncodeEntryTail(f) + y);
    TextPrefix(e.name, EncodeEntryTail(e) + x, f.name, EncodeEntryTail(f) + y);
    EntryTailPrefix(e, x, f, y);
  }

  lemma EntryLimits(hash: Hash, e: TreeEntry)
    requires ValidEntry(hash, e)
    ensures |e.name| <= 255 && e.mode < 0x1_0000_0000 && |e.kind.digest.text| == DIGEST_BYTES
    ensures e.kind.File? ==> e.kind.byteLen <= MAX_FILE_BYTES
  {
  }

  lemma {:induction false} EntriesAppend(hash: Hash, a: seq<TreeEntry>, b: seq<TreeEntry>)
    requires forall e :: e in a + b ==> ValidEntry(hash, e)
    requires (forall e :: e in a ==> ValidEntry(hash, e)) && (forall e :: e in b ==> ValidEntry(hash, e))
    ensures EncodeEntries(hash, a + b) == EncodeEntries(hash, a) + EncodeEntries(hash, b)
  {
    hide ValidEntry, EncodeEntry;
    if a == [] {
      assert a + b == b;
    } else {
      assert (a + b)[1..] == a[1..] + b;
      EntriesAppend(hash, a[1..], b);
    }
  }

  /** Two lists of the same length with the same encoding are the same list. */
  lemma {:induction false} EntriesInjective(hash: Hash, a: seq<TreeEntry>, b: seq<TreeEntry>)
    requires (forall e :: e in a ==> ValidEntry(hash, e)) && (forall e :: e in b ==> ValidEntry(hash, e))
    requires |a| == |b| && EncodeEntries(hash, a) == EncodeEntries(hash, b)
    ensures a == b
  {
    hide ValidEntry, EncodeEntry;
    if a != [] {
      EntryPrefix(hash, a[0], EncodeEntries(hash, a[1..]), b[0], EncodeEntries(hash, b[1..]));
      EntriesInjective(hash, a[1..], b[1..]);
      assert a == [a[0]] + a[1..] && b == [b[0]] + b[1..];
    }
  }

  lemma TreeHeaderPrefix(m: nat, c: nat, x: Bytes, n: nat, d: nat, y: Bytes)
    requires m < 0x1_0000_0000 && n < 0x1_0000_0000 && c < U64_END && d < U64_END
    requires TreeHeader(m, c) + x == TreeHeader(n, d) + y
    ensures m == n && c == d && x == y
  {
    hide BigEndian, Power256, ObjectHeader;
    Widths();
    var mm, nn, cc, dd := BigEndian(m, 4), BigEndian(n, 4), BigEndian(c, 8), BigEndian(d, 8);
    assert TreeHeader(m, c) + x == ObjectHeader(TREE_DOMAIN) + (mm + (cc + x));
    assert TreeHeader(n, d) + y == ObjectHeader(TREE_DOMAIN) + (nn + (dd + y));
    SplitEqual(ObjectHeader(TREE_DOMAIN), mm + (cc + x), ObjectHeader(TREE_DOMAIN), nn + (dd + y));
    FixedPrefix(m, n, 4, cc + x, dd + y);
    FixedPrefix(c, d, 8, x, y);
  }

  /** Distinct valid trees have distinct encodings. */
  lemma TreeInjective(hash: Hash, t: TreeObject, u: TreeObject)
    requires ValidTreeObject(hash, t) && ValidTreeObject(hash, u)
    requires EncodeTree(hash, t) == EncodeTree(hash, u)
    ensures t == u
  {
    hide ValidEntry, EncodeEntries, TreeHeader;
    TreeHeaderPrefix(t.rootMode, |t.entries|, EncodeEntries(hash, t.entries), u.rootMode, |u.entries|, EncodeEntries(hash, u.entries));
    EntriesInjective(hash, t.entries, u.entries);
  }

  // ----- Decoders

  method ReadDigest(reader: Reader) returns (r: Option<Digest>)
    modifies reader
    ensures r.Some? ==> ValidDigest(r.value) && old(reader.remaining) == EncodeText(r.value.text) + reader.remaining
    ensures r.None? ==> forall d, rest :: ValidDigest(d) ==> old(reader.remaining) != EncodeText(d.text) + rest
  {
    hide EncodeText;
    ghost var start := reader.remaining;
    var text := reader.Text(DIGEST_BYTES);
    if text.None? {
      return None;
    }
    forall d, rest | ValidDigest(d) && start == EncodeText(d.text) + rest ensures d == Digest(text.value) {
      TextPrefix(text.value, reader.remaining, d.text, rest);
    }
    r := if ValidDigest(Digest(text.value)) then Some(Digest(text.value)) else None;
  }

  /** The tail of an encoded entry, field by field. */
  lemma TailFields(e: TreeEntry, rest: Bytes)
    requires e.mode < 0x1_0000_0000 && |e.kind.digest.text| <= DIGEST_BYTES && (e.kind.File? ==> e.kind.byteLen <= MAX_FILE_BYTES)
    ensures 0x1_0000_0000 == Power256(4) && Tag(e.kind) < Power256(1)
    ensures EncodeEntryTail(e) + rest
         == BigEndian(Tag(e.kind), 1) + (BigEndian(e.mode, 4) + (EncodeText(e.kind.digest.text) + (EncodeLength(e.kind) + rest)))
  {
    hide BigEndian, Power256, EncodeText;
    Widths();
    var ed, el, em := EncodeText(e.kind.digest.text), EncodeLength(e.kind), BigEndian(e.mode, 4);
    assert (em + (ed + el)) + rest == em + (ed + (el + rest));
  }

  /** A stream that carries an entry carries its tag, mode and digest in this order. */
  lemma TailStarts(hash: Hash, e: TreeEntry, rest: Bytes, tag: nat, mode: nat, digest: Digest, s: Bytes)
    requires ValidEntry(hash, e) && tag < Power256(1) && mode < Power256(4) && ValidDigest(digest)
    requires BigEndian(tag, 1) + (BigEndian(mode, 4) + (EncodeText(digest.text) + s)) == EncodeEntryTail(e) + rest
    ensures Tag(e.kind) == tag && e.mode == mode && e.kind.digest == digest && s == EncodeLength(e.kind) + rest
  {
    hide BigEndian, Power256, EncodeText, EncodeLength, EncodeEntryTail, ValidSegment;
    EntryLimits(hash, e);
    TailFields(e, rest);
    var ed, el, em := EncodeText(e.kind.digest.text), EncodeLength(e.kind), BigEndian(e.mode, 4);
    FixedPrefix(tag, Tag(e.kind), 1, BigEndian(mode, 4) + (EncodeText(digest.text) + s), em + (ed + (el + rest)));
    FixedPrefix(mode, e.mode, 4, EncodeText(digest.text) + s, ed + (el + rest));
    TextPrefix(digest.text, s, e.kind.digest.text, el + rest);
    assert e.kind.digest.text == digest.text;
  }

  lemma TailTooShort(hash: Hash, e: TreeEntry, rest: Bytes)
    requires ValidEntry(hash, e)
    ensures |EncodeEntryTail(e) + rest| >= 5
  {
    EntryLimits(hash, e);
    TailFields(e, rest);
  }

  lemma TailNeedsDigest(hash: Hash, e: TreeEntry, rest: Bytes, tag: nat, mode: nat, s: Bytes)
    requires ValidEntry(hash, e) && tag < Power256(1) && mode < Power256(4)
    requires BigEndian(tag, 1) + (BigEndian(mode, 4) + s) == EncodeEntryTail(e) + rest
    ensures exists d, more :: ValidDigest(d) && s == EncodeText(d.text) + more
  {
    hide BigEndian, Power256, EncodeText, EncodeLength, EncodeEntryTail, ValidSegment;
    EntryLimits(hash, e);
    TailFields(e, rest);
    var ed, el, em := EncodeText(e.kind.digest.text), EncodeLength(e.kind), BigEndian(e.mode, 4);
    FixedPrefix(tag, Tag(e.kind), 1, BigEndian(mode, 4) + s, em + (ed + (el + rest)));
    FixedPrefix(mode, e.mode, 4, s, ed + (el + rest));
    assert ValidDigest(e.kind.digest) && s == EncodeText(e.kind.digest.text) + (el + rest);
  }

  /** Tag, mode, digest and length of an entry whose name has been read. */
  method ReadEntryTail(reader: Reader, hash: Hash, name: Segment) returns (r: Option<TreeEntry>)
    requires ValidSegment(name)
    modifies reader
    ensures r.Some? ==> ValidEntry(hash, r.value) && r.value.name == name
    ensures r.Some? ==> old(reader.remaining) == EncodeEntryTail(r.value) + reader.remaining
    ensures r.None? ==> forall e, rest :: ValidEntry(hash, e) && e.name == name ==> old(reader.remaining) != EncodeEntryTail(e) + rest
  {
    hide BigEndian, Power256, EncodeText, EncodeEntryTail, ValidSegment;
    Widths();
    ghost var start := reader.remaining;
    var tag := reader.Fixed(1);
    var mode := None;
    if tag.Some? {
      mode := reader.Fixed(4);
    }
    if mode.None? {
      forall e, rest | ValidEntry(hash, e) && start == EncodeEntryTail(e) + rest ensures false {
        TailTooShort(hash, e, rest);
      }
      return None;
    }
    ghost var s := reader.remaining;
    var digest := ReadDigest(reader);
    if digest.None? {
      forall e, rest | ValidEntry(hash, e) && start == EncodeEntryTail(e) + rest ensures false {
        TailNeedsDigest(hash, e, rest, tag.value, mode.value, s);
      }
      return None;
    }
    ghost var s3 := reader.remaining;
    forall e, rest | ValidEntry(hash, e) && start == EncodeEntryTail(e) + rest
      ensures Tag(e.kind) == tag.value && e.mode == mode.value && e.kind.digest == digest.value && s3 == EncodeLength(e.kind) + rest
    {
      TailStarts(hash, e, rest, tag.value, mode.value, digest.value, s3);
    }
    var e;
    if tag.value == 0 {
      var byteLen := reader.Fixed(8);
      if byteLen.None? {
        return None;
      }
      e := TreeEntry(name, mode.value, File(digest.value, byteLen.value));
      forall f, rest | ValidEntry(hash, f) && f.name == name && start == EncodeEntryTail(f) + rest ensures f == e {
        FixedPrefix(byteLen.value, f.kind.byteLen, 8, reader.remaining, rest);
      }
    } else if tag.value == 1 {
      e := TreeEntry(name, mode.value, Directory(digest.value));
    } else if tag.value == 2 {
      e := TreeEntry(name, mode.value, Symlink(digest.value));
    } else {
      return None;
    }
    if !ValidEntry(hash, e) {
      return None;
    }
    TailFields(e, reader.remaining);
    r := Some(e);
  }

  /** One entry, or proof that none is at the front of the stream. */
  method ReadEntry(reader: Reader, hash: Hash) returns (r: Option<TreeEntry>)
    modifies reader
    ensures r.Some? ==> ValidEntry(hash, r.value) && old(reader.remaining) == EncodeEntry(hash, r.value) + reader.remaining
    ensures r.None? ==> forall e, rest :: ValidEntry(hash, e) ==> old(reader.remaining) != EncodeEntry(hash, e) + rest
  {
    hide EncodeText, EncodeEntryTail, CleanText;
    ghost var start := reader.remaining;
    var name := reader.Text(255);
    forall e, rest | ValidEntry(hash, e) && start == EncodeEntry(hash, e) + rest
      ensures name.Some? && e.name == name.value && reader.remaining == EncodeEntryTail(e) + rest
    {
      EntryLimits(hash, e);
      assert start == EncodeText(e.name) + (EncodeEntryTail(e) + rest);
      TextPrefix(name.value, reader.remaining, e.name, EncodeEntryTail(e) + rest);
    }
    if name.None? || !ValidSegment(name.value) {
      return None;
    }
    r := ReadEntryTail(reader, hash, name.value);
    if r.Some? {
      EntryLimits(hash, r.value);
      assert start == EncodeText(name.value) + (EncodeEntryTail(r.value) + reader.remaining);
    }
  }

  /** Accepts exactly the encoding of some contents under the expected digest. */
  method DecodeFile(hash: Hash, expected: Digest, bytes: Bytes) returns (r: Result<Bytes, Issue>)
    ensures r.Success? ==> |r.value| <= MAX_FILE_BYTES && bytes == EncodeFile(r.value) && hash(bytes) == expected
    ensures r.Failure? ==> hash(bytes) != expected || forall c: Bytes :: |c| <= MAX_FILE_BYTES ==> bytes != EncodeFile(c)
    ensures r == Failure(SymlinkGraph.DigestMismatch) <==> hash(bytes) != expected
  {
    hide EncodeText, BigEndian, Power256;
    if hash(bytes) != expected {
      return Failure(SymlinkGraph.DigestMismatch);
    }
    var reader := new Reader(bytes);
    var ok := reader.Expect(ObjectHeader(FILE_DOMAIN));
    if !ok {
      return Failure(SymlinkGraph.InvalidEncoding);
    }
    ghost var tail := reader.remaining;
    forall c: Bytes | |c| <= MAX_FILE_BYTES && bytes == EncodeFile(c) ensures tail == EncodeText(c) + [] {
      SplitEqual(ObjectHeader(FILE_DOMAIN), tail, ObjectHeader(FILE_DOMAIN), EncodeText(c));
    }
    var contents := reader.Text(MAX_FILE_BYTES);
    if contents.None? {
      return Failure(SymlinkGraph.InvalidEncoding);
    }
    forall c: Bytes | |c| <= MAX_FILE_BYTES && bytes == EncodeFile(c) ensures reader.remaining == [] {
      TextPrefix(contents.value, reader.remaining, c, []);
    }
    if reader.remaining != [] {
      return Failure(SymlinkGraph.InvalidEncoding);
    }
    r := Success(contents.value);
  }

  /** Accepts exactly the encoding of a clean, nonempty target under the expected digest. */
  method DecodeSymlink(hash: Hash, expected: Digest, bytes: Bytes) returns (r: Result<Bytes, Issue>)
    ensures r.Success? ==> ValidTarget(r.value) && bytes == EncodeSymlink(r.value) && hash(bytes) == expected
    ensures r.Failure? ==> hash(bytes) != expected || forall t: Bytes :: ValidTarget(t) ==> bytes != EncodeSymlink(t)
    ensures r == Failure(SymlinkGraph.DigestMismatch) <==> hash(bytes) != expected
  {
    hide EncodeText, BigEndian, Power256, CleanText;
    if hash(bytes) != expected {
      return Failure(SymlinkGraph.DigestMismatch);
    }
    var reader := new Reader(bytes);
    var ok := reader.Expect(ObjectHeader(SYMLINK_DOMAIN));
    if !ok {
      return Failure(SymlinkGraph.InvalidEncoding);
    }
    ghost var tail := reader.remaining;
    forall t: Bytes | ValidTarget(t) && bytes == EncodeSymlink(t) ensures tail == EncodeText(t) + [] {
      SplitEqual(ObjectHeader(SYMLINK_DOMAIN), tail, ObjectHeader(SYMLINK_DOMAIN), EncodeText(t));
    }
    var target := reader.Text(MAX_SYMLINK_BYTES);
    if target.None? {
      return Failure(SymlinkGraph.InvalidEncoding);
    }
    forall t: Bytes | ValidTarget(t) && bytes == EncodeSymlink(t) ensures t == target.value && reader.remaining == [] {
      TextPrefix(target.value, reader.remaining, t, []);
    }
    if !ValidTarget(target.value) || reader.remaining != [] {
      return Failure(SymlinkGraph.InvalidEncoding);
    }
    r := Success(target.value);
  }

  // ----- Decoding trees

  ghost predicate EncodesTree(hash: Hash, bytes: Bytes, t: TreeObject) {
    ValidTreeObject(hash, t) && EncodeTree(hash, t) == bytes
  }

  /** Every tree these bytes could encode starts with the entries read so far. */
  ghost predicate Follows(hash: Hash, bytes: Bytes, rootMode: nat, count: nat, entries: seq<TreeEntry>, remaining: Bytes) {
    forall t {:trigger EncodesTree(hash, bytes, t)} :: EncodesTree(hash, bytes, t) ==>
      t.rootMode == rootMode && |t.entries| == count && entries <= t.entries
      && EncodeEntries(hash, t.entries[|entries|..]) == remaining
  }

  lemma FollowsHeader(hash: Hash, bytes: Bytes, rootMode: nat, count: nat, remaining: Bytes)
    requires rootMode < 0x1_0000_0000 && count < U64_END && bytes == TreeHeader(rootMode, count) + remaining
    ensures Follows(hash, bytes, rootMode, count, [], remaining)
  {
    hide TreeHeader, ValidEntry, EncodeEntries;
    forall t | EncodesTree(hash, bytes, t)
      ensures t.rootMode == rootMode && |t.entries| == count && EncodeEntries(hash, t.entries[0..]) == remaining
    {
      TreeHeaderPrefix(rootMode, count, remaining, t.rootMode, |t.entries|, EncodeEntries(hash, t.entries));
      assert t.entries[0..] == t.entries;
    }
  }

  lemma FollowsEntry(hash: Hash, bytes: Bytes, rootMode: nat, count: nat, entries: seq<TreeEntry>, before: Bytes, e: TreeEntry, after: Bytes)
    requires Follows(hash, bytes, rootMode, count, entries, before) && |entries| < count
    requires ValidEntry(hash, e) && before == EncodeEntry(hash, e) + after
    ensures Follows(hash, bytes, rootMode, count, entries + [e], after)
  {
    hide ValidEntry, EncodeEntry, EncodeTree;
    var i := |entries|;
    forall t | EncodesTree(hash, bytes, t)
      ensures t.rootMode == rootMode && |t.entries| == count && entries + [e] <= t.entries
      ensures EncodeEntries(hash, t.entries[i + 1..]) == after
    {
      assert t.entries[i..][0] == t.entries[i] && t.entries[i..][1..] == t.entries[i + 1..];
      assert t.entries[i] in t.entries;
      EntryPrefix(hash, e, after, t.entries[i], EncodeEntries(hash, t.entries[i + 1..]));
    }
  }

  lemma FollowsUnreadable(hash: Hash, bytes: Bytes, rootMode: nat, count: nat, entries: seq<TreeEntry>, before: Bytes)
    requires Follows(hash, bytes, rootMode, count, entries, before) && |entries| < count
    requires forall e, rest :: ValidEntry(hash, e) ==> before != EncodeEntry(hash, e) + rest
    ensures forall t :: !EncodesTree(hash, bytes, t)
  {
    forall t ensures !EncodesTree(hash, bytes, t) {
      if EncodesTree(hash, bytes, t) {
        EntryAhead(hash, bytes, rootMode, count, entries, before, t);
      }
    }
  }

  /** What is left to read starts with the next entry of every tree that the bytes could encode. */
  lemma EntryAhead(hash: Hash, bytes: Bytes, rootMode: nat, count: nat, entries: seq<TreeEntry>, before: Bytes, t: TreeObject)
    requires Follows(hash, bytes, rootMode, count, entries, before) && |entries| < count && EncodesTree(hash, bytes, t)
    ensures |t.entries| == count && ValidEntry(hash, t.entries[|entries|])
    ensures before == EncodeEntry(hash, t.entries[|entries|]) + EncodeEntries(hash, t.entries[|entries| + 1..])
  {
    hide ValidEntry, EncodeEntry, EncodeTree;
    var i := |entries|;
    assert t.entries[i..][0] == t.entries[i] && t.entries[i..][1..] == t.entries[i + 1..];
    assert t.entries[i] in t.entries;
  }

  /** A list that already breaks a rule is the beginning of no valid tree. */
  lemma FollowsInvalid(hash: Hash, bytes: Bytes, rootMode: nat, count: nat, entries: seq<TreeEntry>, remaining: Bytes)
    requires Follows(hash, bytes, rootMode, count, entries, remaining) && !ValidEntries(hash, entries)
    ensures forall t :: !EncodesTree(hash, bytes, t)
  {
    hide ValidEntry, EncodeEntries, EncodeTree;
    forall t ensures !EncodesTree(hash, bytes, t) {
      if EncodesTree(hash, bytes, t) {
        EntriesSoFar(hash, bytes, rootMode, count, entries, remaining, t);
      }
    }
  }

  lemma EntriesSoFar(hash: Hash, bytes: Bytes, rootMode: nat, count: nat, entries: seq<TreeEntry>, remaining: Bytes, t: TreeObject)
    requires Follows(hash, bytes, rootMode, count, entries, remaining) && EncodesTree(hash, bytes, t)
    ensures ValidEntries(hash, entries)
  {
    hide ValidEntry, EncodeEntries, EncodeTree, ValidEntries;
    ValidPrefix(hash, t.entries, |entries|);
    assert t.entries[..|entries|] == entries;
  }

  lemma ValidPrefix(hash: Hash, entries: seq<TreeEntry>, n: nat)
    requires ValidEntries(hash, entries) && n <= |entries|
    ensures ValidEntries(hash, entries[..n])
  {
    hide ValidEntry;
    assert entries == entries[..n] + entries[n..];
    WeighAppend(entries[..n], entries[n..], (e: TreeEntry) => if e.kind.File? then e.kind.byteLen else 0);
    var names := NamesIn(entries);
    forall i | 0 <= i < n - 1 ensures Before(NamesIn(entries[..n])[i], NamesIn(entries[..n])[i + 1]) {
      assert Before(names[i], names[i + 1]);
    }
  }

  /** Lengths already given to the file objects of a list. */
  ghost predicate Records(entries: seq<TreeEntry>, lengths: map<Digest, nat>) {
    && (forall e :: e in entries && e.kind.File? ==> e.kind.digest in lengths && lengths[e.kind.digest] == e.kind.byteLen)
    && (forall d :: d in lengths ==> exists i :: 0 <= i < |entries| && entries[i].kind.File? && entries[i].kind.digest == d)
  }

  /** Whether a list stays valid with one more entry is decided by its last name, the byte total so far
      and the recorded lengths. */
  lemma ValidWithOneMore(hash: Hash, entries: seq<TreeEntry>, lengths: map<Digest, nat>, e: TreeEntry)
    requires ValidEntries(hash, entries) && ValidEntry(hash, e) && Records(entries, lengths)
    ensures AggregateBytes(entries + [e]) == AggregateBytes(entries) + (if e.kind.File? then e.kind.byteLen else 0)
    ensures ValidEntries(hash, entries + [e]) <==>
      && (entries != [] ==> Before(entries[|entries| - 1].name, e.name))
      && AggregateBytes(entries + [e]) <= MAX_FILE_BYTES
      && (e.kind.File? && e.kind.digest in lengths ==> lengths[e.kind.digest] == e.kind.byteLen)
  {
    hide ValidEntry;
    var more := entries + [e];
    var n := |entries|;
    WeighAppend(entries, [e], (f: TreeEntry) => if f.kind.File? then f.kind.byteLen else 0);
    assert [e][1..] == [];
    NamesWithOneMore(entries, e);
    LengthsWithOneMore(entries, lengths, e);
  }

  lemma NamesWithOneMore(entries: seq<TreeEntry>, e: TreeEntry)
    requires StrictlySorted(NamesIn(entries))
    ensures StrictlySorted(NamesIn(entries + [e])) <==> (entries != [] ==> Before(entries[|entries| - 1].name, e.name))
  {
    var names, more := NamesIn(entries), NamesIn(entries + [e]);
    var n := |entries|;
    if n > 0 {
      assert more[n - 1] == entries[n - 1].name && more[n - 1 + 1] == e.name;
      assert forall i :: 0 <= i < n ==> more[i] == names[i];
      if Before(entries[n - 1].name, e.name) {
        forall i | 0 <= i < n ensures Before(more[i], more[i + 1]) {
          if i < n - 1 {
            assert Before(names[i], names[i + 1]);
          }
        }
      }
    }
  }

  lemma RecordedIndex(entries: seq<TreeEntry>, lengths: map<Digest, nat>, d: Digest) returns (i: nat)
    requires Records(entries, lengths) && d in lengths
    ensures i < |entries| && entries[i].kind == File(d, lengths[d])
  {
    i :| 0 <= i < |entries| && entries[i].kind.File? && entries[i].kind.digest == d;
    assert entries[i] in entries;
  }

  lemma RecordsStep(entries: seq<TreeEntry>, lengths: map<Digest, nat>, e: TreeEntry)
    requires Records(entries, lengths)
    ensures e.kind.File? && (e.kind.digest in lengths ==> lengths[e.kind.digest] == e.kind.byteLen) ==>
      Records(entries + [e], lengths[e.kind.digest := e.kind.byteLen])
    ensures !e.kind.File? ==> Records(entries + [e], lengths)
  {
    var more, n := entries + [e], |entries|;
    assert more[n] == e;
    forall d | d in lengths ensures exists i :: 0 <= i < |more| && more[i].kind.File? && more[i].kind.digest == d {
      var i := RecordedIndex(entries, lengths, d);
      assert more[i] == entries[i];
    }
  }

  lemma LengthsWithOneMore(entries: seq<TreeEntry>, lengths: map<Digest, nat>, e: TreeEntry)
    requires LengthsAgree(entries) && Records(entries, lengths)
    ensures LengthsAgree(entries + [e]) <==> (e.kind.File? && e.kind.digest in lengths ==> lengths[e.kind.digest] == e.kind.byteLen)
  {
    var more, n := entries + [e], |entries|;
    forall i | 0 <= i < n && entries[i].kind.File?
      ensures entries[i].kind.digest in lengths && lengths[entries[i].kind.digest] == entries[i].kind.byteLen
    {
      assert entries[i] in entries;
    }
    if e.kind.File? && e.kind.digest in lengths {
      var i := RecordedIndex(entries, lengths, e.kind.digest);
      assert more[i] == entries[i] && more[n] == e;
    }
  }

  /** Reads one entry of a tree and checks it against the entries before it. */
  method NextEntry(reader: Reader, hash: Hash, ghost bytes: Bytes, ghost rootMode: nat, ghost count: nat,
                   entries: seq<TreeEntry>, lengths: map<Digest, nat>, aggregate: nat)
    returns (r: Option<TreeEntry>, known: map<Digest, nat>, total: nat)
    requires ValidEntries(hash, entries) && Records(entries, lengths) && aggregate == AggregateBytes(entries)
    requires |entries| < count && Follows(hash, bytes, rootMode, count, entries, reader.remaining)
    modifies reader
    ensures r.Some? ==> ValidEntry(hash, r.value) && ValidEntries(hash, entries + [r.value]) && Records(entries + [r.value], known)
    ensures r.Some? ==> total == AggregateBytes(entries + [r.value])
    ensures r.Some? ==> old(reader.remaining) == EncodeEntry(hash, r.value) + reader.remaining
    ensures r.Some? ==> Follows(hash, bytes, rootMode, count, entries + [r.value], reader.remaining)
    ensures r.None? ==> forall t :: !EncodesTree(hash, bytes, t)
  {
    hide ValidEntry, EncodeEntry, ValidEntries, Records, AggregateBytes, Follows, EncodesTree, CleanText;
    known, total := lengths, aggregate;
    ghost var before := reader.remaining;
    r := ReadEntry(reader, hash);
    if r.None? {
      FollowsUnreadable(hash, bytes, rootMode, count, entries, before);
      return;
    }
    var e := r.value;
    FollowsEntry(hash, bytes, rootMode, count, entries, before, e, reader.remaining);
    ValidWithOneMore(hash, entries, lengths, e);
    RecordsWithOneMore(hash, entries, lengths, e);
    if entries != [] && !Before(entries[|entries| - 1].name, e.name) {
      FollowsInvalid(hash, bytes, rootMode, count, entries + [e], reader.remaining);
      return None, known, total;
    }
    if e.kind.File? {
      total := aggregate + e.kind.byteLen;
      if total > MAX_FILE_BYTES || (e.kind.digest in lengths && lengths[e.kind.digest] != e.kind.byteLen) {
        FollowsInvalid(hash, bytes, rootMode, count, entries + [e], reader.remaining);
        return None, known, total;
      }
      known := lengths[e.kind.digest := e.kind.byteLen];
    }
    AggregateWithin(hash, entries);
  }

  lemma AggregateWithin(hash: Hash, entries: seq<TreeEntry>)
    requires ValidEntries(hash, entries)
    ensures AggregateBytes(entries) <= MAX_FILE_BYTES
  {
  }

  lemma RecordsWithOneMore(hash: Hash, entries: seq<TreeEntry>, lengths: map<Digest, nat>, e: TreeEntry)
    requires ValidEntries(hash, entries) && Records(entries, lengths)
    ensures e.kind.File? && ValidEntries(hash, entries + [e]) ==> Records(entries + [e], lengths[e.kind.digest := e.kind.byteLen])
    ensures !e.kind.File? ==> Records(entries + [e], lengths)
  {
    hide ValidEntry, Records, AggregateBytes, StrictlySorted;
    LengthsWithOneMore(entries, lengths, e);
    RecordsStep(entries, lengths, e);
  }

  /** Accepts exactly the encoding of a valid tree under the expected digest. */
  method DecodeTree(hash: Hash, expected: Digest, bytes: Bytes) returns (r: Result<TreeObject, Issue>)
    ensures r.Success? ==> EncodesTree(hash, bytes, r.value) && hash(bytes) == expected
    ensures r.Failure? ==> hash(bytes) != expected || forall t :: !EncodesTree(hash, bytes, t)
    ensures r == Failure(SymlinkGraph.DigestMismatch) <==> hash(bytes) != expected
  {
    hide ValidEntry, EncodeEntry, ValidEntries, Records, AggregateBytes, Follows, BigEndian, Power256;
    if hash(bytes) != expected {
      return Failure(SymlinkGraph.DigestMismatch);
    }
    Widths();
    var reader := new Reader(bytes);
    var ok := reader.Expect(ObjectHeader(TREE_DOMAIN));
    var rootMode, count := None, None;
    if ok {
      rootMode := reader.Fixed(4);
      if rootMode.Some? {
        count := reader.Fixed(8);
      }
    }
    if count.None? {
      forall t ensures !EncodesTree(hash, bytes, t) {
        if EncodesTree(hash, bytes, t) {
          var rest := HeaderNeeded(hash, bytes, t);
          HeaderLength(bytes, rest);
        }
      }
      return Failure(SymlinkGraph.InvalidEncoding);
    }
    assert bytes == TreeHeader(rootMode.value, count.value) + reader.remaining;
    FollowsHeader(hash, bytes, rootMode.value, count.value, reader.remaining);
    HeaderDecides(hash, bytes, rootMode.value, count.value, reader.remaining);
    if !DirectoryMode(rootMode.value) {
      return Failure(SymlinkGraph.InvalidEncoding);
    }
    if count.value > MAX_ENTRIES {
      return Failure(SymlinkGraph.TooLarge);
    }
    var entries, lengths, aggregate := [], map[], 0;
    ghost var header := TreeHeader(rootMode.value, count.value);
    NothingRead(hash);
    while |entries| < count.value
      invariant |entries| <= count.value
      invariant ValidEntries(hash, entries) && Records(entries, lengths) && aggregate == AggregateBytes(entries)
      invariant Follows(hash, bytes, rootMode.value, count.value, entries, reader.remaining)
      invariant Unread(hash, bytes, header, entries, reader.remaining)
      decreases count.value - |entries|
    {
      ghost var before := reader.remaining;
      var e;
      e, lengths, aggregate := NextEntry(reader, hash, bytes, rootMode.value, count.value, entries, lengths, aggregate);
      if e.None? {
        return Failure(SymlinkGraph.InvalidEncoding);
      }
      UnreadStep(hash, bytes, header, entries, before, e.value, reader.remaining);
      entries := entries + [e.value];
    }
    AllRead(hash, bytes, rootMode.value, entries, reader.remaining);
    if reader.remaining != [] {
      return Failure(SymlinkGraph.InvalidEncoding);
    }
    r := Success(TreeObject(rootMode.value, entries));
  }

  /** ObjectHeader, entries read and remaining bytes make up the input. */
  ghost predicate Unread(hash: Hash, bytes: Bytes, header: Bytes, entries: seq<TreeEntry>, remaining: Bytes) {
    (forall e :: e in entries ==> ValidEntry(hash, e)) && bytes == header + (EncodeEntries(hash, entries) + remaining)
  }

  lemma UnreadStep(hash: Hash, bytes: Bytes, header: Bytes, entries: seq<TreeEntry>, before: Bytes, e: TreeEntry, after: Bytes)
    requires Unread(hash, bytes, header, entries, before)
    requires ValidEntries(hash, entries + [e])
    requires ValidEntry(hash, e) && before == EncodeEntry(hash, e) + after
    ensures Unread(hash, bytes, header, entries + [e], after)
  {
    hide ValidEntry, EncodeEntry;
    assert [e][1..] == [];
    assert EncodeEntries(hash, [e]) == EncodeEntry(hash, e);
    EntriesAppend(hash, entries, [e]);
    assert EncodeEntries(hash, entries) + before == EncodeEntries(hash, entries + [e]) + after;
  }

  lemma NothingRead(hash: Hash)
    ensures ValidEntries(hash, []) && Records([], map[]) && AggregateBytes([]) == 0
  {
  }

  lemma AllRead(hash: Hash, bytes: Bytes, rootMode: nat, entries: seq<TreeEntry>, remaining: Bytes)
    requires rootMode < 0x1_0000_0000 && |entries| <= MAX_ENTRIES && DirectoryMode(rootMode)
    requires Unread(hash, bytes, TreeHeader(rootMode, |entries|), entries, remaining) && ValidEntries(hash, entries)
    requires Follows(hash, bytes, rootMode, |entries|, entries, remaining)
    ensures remaining == [] ==> EncodesTree(hash, bytes, TreeObject(rootMode, entries))
    ensures remaining != [] ==> forall t :: !EncodesTree(hash, bytes, t)
  {
    hide ValidEntry, TreeHeader;
    if remaining == [] {
      assert EncodeEntries(hash, entries) + remaining == EncodeEntries(hash, entries);
    } else {
      forall t ensures !EncodesTree(hash, bytes, t) {
        if EncodesTree(hash, bytes, t) {
          NothingLeft(hash, bytes, rootMode, entries, remaining, t);
        }
      }
    }
  }

  lemma NothingLeft(hash: Hash, bytes: Bytes, rootMode: nat, entries: seq<TreeEntry>, remaining: Bytes, t: TreeObject)
    requires Follows(hash, bytes, rootMode, |entries|, entries, remaining) && EncodesTree(hash, bytes, t)
    ensures remaining == []
  {
    hide ValidEntry, TreeHeader;
    assert t.entries[|entries|..] == [];
  }

  lemma HeaderNeeded(hash: Hash, bytes: Bytes, t: TreeObject) returns (rest: Bytes)
    requires EncodesTree(hash, bytes, t)
    ensures bytes == ObjectHeader(TREE_DOMAIN) + rest && |rest| >= 12
  {
    hide BigEndian, Power256, ObjectHeader, EncodeEntries, ValidEntry;
    Widths();
    rest := (BigEndian(t.rootMode, 4) + BigEndian(|t.entries|, 8)) + EncodeEntries(hash, t.entries);
  }

  lemma HeaderLength(bytes: Bytes, rest: Bytes)
    requires bytes == ObjectHeader(TREE_DOMAIN) + rest
    ensures |bytes| == |ObjectHeader(TREE_DOMAIN)| + |rest|
  {
  }

  lemma HeaderDecides(hash: Hash, bytes: Bytes, rootMode: nat, count: nat, remaining: Bytes)
    requires Follows(hash, bytes, rootMode, count, [], remaining)
    ensures !DirectoryMode(rootMode) || count > MAX_ENTRIES ==> forall t :: !EncodesTree(hash, bytes, t)
  {
  }
}
