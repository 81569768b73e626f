/** One header block of the POSIX ustar interchange format (IEEE Std 1003.1, pax utility), as strict as the
    decoder reads it: every field is checked, and whatever a valid entry encodes to is read back. */
module Ustar {
  import opened Base
  import opened Text
  import opened Canonical

  const BLOCK_BYTES: nat := 512

  type Block = b: Bytes | |b| == BLOCK_BYTES witness Zeros(512)

  function Zeros(n: nat): (b: Bytes)
    ensures |b| == n && forall i :: 0 <= i < n ==> b[i] == 0
  {
    seq(n, _ => 0)
  }

  // ----- Octal fields

  predicate OctalDigit(b: byte) { 48 <= b <= 55 }

  function OctalValue(digits: Bytes): nat
    requires forall i :: 0 <= i < |digits| ==> OctalDigit(digits[i])
  {
    if digits == [] then 0 else
      assert OctalDigit(digits[|digits| - 1]);
      OctalValue(digits[..|digits| - 1]) * 8 + (digits[|digits| - 1] as int - 48)
  }

  /** Digits and one terminating NUL. */
  function ParseOctal(field: Bytes): (r: Option<nat>) {
    if |field| < 2 || field[|field| - 1] != 0 then None else
      var digits := field[..|field| - 1];
      if forall i :: 0 <= i < |digits| ==> OctalDigit(digits[i]) then Some(OctalValue(digits)) else None
  }

  function Power8(width: nat): (p: nat)
    ensures p >= 1
  {
    if width == 0 then 1 else 8 * Power8(width - 1)
  }

  function OctalDigits(n: nat, width: nat): (digits: Bytes)
    requires n < Power8(width)
    ensures |digits| == width && forall i :: 0 <= i < width ==> OctalDigit(digits[i])
  {
    if width == 0 then [] else OctalDigits(n / 8, width - 1) + [48 + n % 8]
  }

  function EncodeOctal(n: nat, width: nat): (field: Bytes)
    requires width >= 2 && n < Power8(width - 1)
    ensures |field| == width
  {
    OctalDigits(n, width - 1) + [0]
  }

  lemma {:induction false} OctalDigitsValue(n: nat, width: nat)
    requires n < Power8(width)
    ensures OctalValue(OctalDigits(n, width)) == n
  {
    if width > 0 {
      OctalDigitsValue(n / 8, width - 1);
      assert OctalDigits(n, width)[..width - 1] == OctalDigits(n / 8, width - 1);
    }
  }

  /** A number is read back from its field. */
  lemma OctalRoundTrip(n: nat, width: nat)
    requires width >= 2 && n < Power8(width - 1)
    ensures ParseOctal(EncodeOctal(n, width)) == Some(n)
  {
    OctalDigitsValue(n, width - 1);
    assert EncodeOctal(n, width)[..width - 1] == OctalDigits(n, width - 1);
  }

  /** No octal field of a header can overflow 64 bits. */
  lemma {:induction false} OctalBounded(digits: Bytes)
    requires forall i :: 0 <= i < |digits| ==> OctalDigit(digits[i])
    ensures OctalValue(digits) < Power8(|digits|)
  {
    if digits != [] {
      OctalBounded(digits[..|digits| - 1]);
    }
  }

  // ----- Text fields

  /** The text before the first NUL, after which only NULs may follow. */
  function FieldBytes(field: Bytes): Option<Bytes> {
    if field == [] then Some([])
    else if field[0] == 0 then (if forall i :: 0 <= i < |field| ==> field[i] == 0 then Some([]) else None)
    else
      var rest := FieldBytes(field[1..]);
      if rest.Some? then Some([field[0]] + rest.value) else None
  }

  lemma {:induction false} FieldRoundTrip(text: Bytes, padding: nat)
    requires 0 !in text
    ensures FieldBytes(text + Zeros(padding)) == Some(text)
  {
    if text == [] {
      assert text + Zeros(padding) == Zeros(padding);
    } else {
      assert (text + Zeros(padding))[1..] == text[1..] + Zeros(padding);
      FieldRoundTrip(text[1..], padding);
      assert [text[0]] + text[1..] == text;
    }
  }

  function IgnoredText(field: Bytes): bool {
    var text := FieldBytes(field);
    text.Some? && CleanText(text.value)
  }

  // ----- Checksum

  function SumBytes(b: Bytes): nat { if b == [] then 0 else SumBytes(b[..|b| - 1]) + b[|b| - 1] }

  /** The sum of all bytes, with the checksum field itself counted as spaces. */
  function Checksum(block: Block): nat { SumBytes(block[..148]) + 8 * 32 + SumBytes(block[156..]) }

  lemma {:induction false} SumBounded(b: Bytes)
    ensures SumBytes(b) <= 255 * |b|
  {
    if b != [] {
      SumBounded(b[..|b| - 1]);
    }
  }

  /** Six octal digits, a NUL and a space, and the right value. */
  predicate ChecksumHolds(block: Block) {
    && block[154] == 0 && block[155] == 32
    && (forall i :: 0 <= i < 6 ==> OctalDigit(block[148..154][i]))
    && OctalValue(block[148..154]) == Checksum(block)
  }

  // ----- Limits

  const MAX_PATH_BYTES: nat := 4096
  const MAX_DEPTH: nat := 64
  const MAX_SEGMENT_BYTES: nat := 255
  const MAX_TARGET_BYTES: nat := 4096

  datatype Limits = Limits(
    payloadBytes: nat, fileBytes: nat, expandedBytes: nat, entries: nat, pathBytes: nat, pathDepth: nat, segmentBytes: nat,
    targetBytes: nat, metadataBytes: nat, objectBytes: nat, readOperations: nat, workUnits: nat)

  function Lower(a: nat, b: nat): nat { if a < b then a else b }

  /** The caller's limits, never above those of a tree. */
  function Effective(l: Limits): Limits {
    l.(fileBytes := Lower(l.fileBytes, MAX_FILE_BYTES), expandedBytes := Lower(l.expandedBytes, MAX_FILE_BYTES),
       entries := Lower(l.entries, MAX_ENTRIES), pathBytes := Lower(l.pathBytes, MAX_PATH_BYTES),
       pathDepth := Lower(l.pathDepth, MAX_DEPTH), segmentBytes := Lower(l.segmentBytes, MAX_SEGMENT_BYTES),
       targetBytes := Lower(l.targetBytes, MAX_TARGET_BYTES))
  }

  // ----- Headers

  datatype Kind = FileKind | DirectoryKind | LinkKind(target: Bytes)

  datatype Header = Header(path: Path, mode: nat, size: nat, kind: Kind)

  predicate PartsOk(limits: Limits, parts: Path) {
    forall i :: 0 <= i < |parts| ==> parts[i] != [] && parts[i] != [DOT] && parts[i] != [DOT, DOT] && |parts[i]| <= limits.segmentBytes
  }

  /** The path a header spells out in two fields. */
  function JoinedPath(prefix: Bytes, name: Bytes): Bytes { if prefix == [] then name else prefix + [SLASH] + name }

  predicate PathTextOk(limits: Limits, prefix: Bytes, name: Bytes) {
    var text := JoinedPath(prefix, name);
    && name != [] && CleanText(name) && CleanText(prefix) && BACKSLASH !in text && |text| <= limits.pathBytes
    && PartsOk(limits, Split(text)) && |Split(text)| <= limits.pathDepth
  }

  function ResolvedBytes(path: Path, target: Bytes): nat {
    if |path| < 2 then |target| else |Join(path[..|path| - 1])| + 1 + |target|
  }

  /** A target that stays below the directory of its link. */
  predicate TargetOk(limits: Limits, path: Path, target: Bytes) {
    && path != [] && target != [] && CleanText(target) && BACKSLASH !in target && |target| <= limits.targetBytes
    && PartsOk(limits, Split(target)) && |path| - 1 + |Split(target)| <= limits.pathDepth
    && ResolvedBytes(path, target) <= limits.pathBytes
  }

  // "ustar" NUL, "00"
  const MAGIC: Bytes := [117, 115, 116, 97, 114, 0]
  const USTAR_VERSION: Bytes := [48, 48]

  const FILE_TYPE: byte := 48
  const LINK_TYPE: byte := 50
  const DIRECTORY_TYPE: byte := 53

  predicate ZeroDevice(field: Bytes) { (forall b :: b in field ==> b == 0) || ParseOctal(field) == Some(0) }

  /** Everything that is checked and then forgotten. */
  predicate FramingOk(block: Block) {
    && ChecksumHolds(block) && block[257..263] == MAGIC && block[263..265] == USTAR_VERSION
    && (forall b :: b in block[500..512] ==> b == 0)
    && ParseOctal(block[108..116]).Some? && ParseOctal(block[116..124]).Some? && ParseOctal(block[136..148]).Some?
    && IgnoredText(block[265..297]) && IgnoredText(block[297..329])
    && ZeroDevice(block[329..337]) && ZeroDevice(block[337..345])
  }

  /** What the type of an entry allows. */
  function KindOf(limits: Limits, typeflag: byte, path: Path, mode: nat, size: nat, link: Bytes): Option<Kind> {
    if typeflag == FILE_TYPE && link == [] && FileMode(mode) then Some(FileKind)
    else if typeflag == DIRECTORY_TYPE && size == 0 && link == [] && DirectoryMode(mode) then Some(DirectoryKind)
    else if typeflag == LINK_TYPE && size == 0 && mode == SYMLINK_MODE && TargetOk(limits, path, link) then Some(LinkKind(link))
    else None
  }

  function ParseHeader(limits: Limits, block: Block): Option<Header> {
    var mode, size := ParseOctal(block[100..108]), ParseOctal(block[124..136]);
    var name, prefix, link := FieldBytes(block[0..100]), FieldBytes(block[345..500]), FieldBytes(block[157..257]);
    if !FramingOk(block) || mode.None? || size.None? || name.None? || prefix.None? || link.None? then None
    else if !PathTextOk(limits, prefix.value, name.value) then None
    else
      var path := Split(JoinedPath(prefix.value, name.value));
      var kind := KindOf(limits, block[156], path, mode.value, size.value, link.value);
      if kind.None? then None else Some(Header(path, mode.value, size.value, kind.value))
  }

  // ----- Writing a header

  /** Fields that the decoder checks but does not use. */
  datatype Ignored = Ignored(uid: nat, gid: nat, mtime: nat, user: Bytes, group: Bytes)

  predicate IgnoredOk(x: Ignored) {
    && x.uid < Power8(7) && x.gid < Power8(7) && x.mtime < Power8(11)
    && |x.user| <= 32 && 0 !in x.user && CleanText(x.user) && |x.group| <= 32 && 0 !in x.group && CleanText(x.group)
  }

  function TypeOf(kind: Kind): byte { match kind case FileKind => FILE_TYPE case DirectoryKind => DIRECTORY_TYPE case LinkKind(_) => LINK_TYPE }

  function LinkOf(kind: Kind): Bytes { match kind case LinkKind(target) => target case _ => [] }

  /** A header whose path fits the two path fields. */
  predicate Writable(limits: Limits, h: Header, prefix: Bytes, name: Bytes, x: Ignored) {
    && IgnoredOk(x) && |name| <= 100 && |prefix| <= 155 && 0 !in name && 0 !in prefix
    && PathTextOk(limits, prefix, name) && h.path == Split(JoinedPath(prefix, name))
    && h.mode < Power8(7) && h.size < Power8(11) && |LinkOf(h.kind)| <= 100 && 0 !in LinkOf(h.kind)
    && KindOf(limits, TypeOf(h.kind), h.path, h.mode, h.size, LinkOf(h.kind)) == Some(h.kind)
  }

  function Padded(text: Bytes, width: nat): (field: Bytes)
    requires |text| <= width
    ensures |field| == width
  {
    text + Zeros(width - |text|)
  }

  /** The fields before the checksum. */
  function FirstPart(h: Header, name: Bytes, x: Ignored): (b: Bytes)
    requires |name| <= 100 && h.mode < Power8(7) && h.size < Power8(11) && IgnoredOk(x)
    ensures |b| == 148
  {
    Padded(name, 100) + (EncodeOctal(h.mode, 8) + (EncodeOctal(x.uid, 8) + (EncodeOctal(x.gid, 8) + (EncodeOctal(h.size, 12) + EncodeOctal(x.mtime, 12)))))
  }

  /** The fields after it. */
  function SecondPart(h: Header, prefix: Bytes, x: Ignored): (b: Bytes)
    requires |prefix| <= 155 && |LinkOf(h.kind)| <= 100 && IgnoredOk(x)
    ensures |b| == 356
  {
    [TypeOf(h.kind)] + (Padded(LinkOf(h.kind), 100) + (MAGIC + (USTAR_VERSION + (Padded(x.user, 32) + (Padded(x.group, 32)
      + (Zeros(8) + (Zeros(8) + (Padded(prefix, 155) + Zeros(12)))))))))
  }

  function EncodeHeader(limits: Limits, h: Header, prefix: Bytes, name: Bytes, x: Ignored): (block: Block)
    requires Writable(limits, h, prefix, name, x)
  {
    hide PathTextOk, KindOf, CleanText, SumBytes;
    var first, second := FirstPart(h, name, x), SecondPart(h, prefix, x);
    var sum := SumBytes(first) + 8 * 32 + SumBytes(second);
    SumFits(first, second);
    first + (OctalDigits(sum, 6) + ([0, 32] + second))
  }

  lemma SumFits(first: Bytes, second: Bytes)
    requires |first| == 148 && |second| == 356
    ensures SumBytes(first) + 8 * 32 + SumBytes(second) < Power8(6)
  {
    SumBounded(first);
    SumBounded(second);
    assert Power8(3) == 512 && Power8(6) == 512 * 512 by {
      assert Power8(1) == 8 && Power8(2) == 64;
      assert Power8(4) == 4096 && Power8(5) == 32768;
    }
  }

  /** Takes the first field off a suffix of a block. */
  lemma Peel(block: Bytes, at: nat, field: Bytes, rest: Bytes)
    requires at <= |block| && block[at..] == field + rest
    ensures at + |field| <= |block| && block[at..at + |field|] == field && block[at + |field|..] == rest
  {
    assert block[at..][..|field|] == field;
    assert block[at..][|field|..] == rest;
    assert block[at..at + |field|] == block[at..][..|field|];
    assert block[at + |field|..] == block[at..][|field|..];
  }

  lemma FirstFields(block: Bytes, h: Header, name: Bytes, x: Ignored, rest: Bytes)
    requires |name| <= 100 && h.mode < Power8(7) && h.size < Power8(11) && IgnoredOk(x)
    requires block == FirstPart(h, name, x) + rest
    ensures |block| >= 148 && block[0..100] == Padded(name, 100) && block[100..108] == EncodeOctal(h.mode, 8) && block[108..116] == EncodeOctal(x.uid, 8)
    ensures block[116..124] == EncodeOctal(x.gid, 8) && block[124..136] == EncodeOctal(h.size, 12) && block[136..148] == EncodeOctal(x.mtime, 12)
  {
    hide Padded, EncodeOctal, Power8, CleanText;
    var f5 := EncodeOctal(x.mtime, 12);
    var f4 := EncodeOctal(h.size, 12) + f5;
    var f3 := EncodeOctal(x.gid, 8) + f4;
    var f2 := EncodeOctal(x.uid, 8) + f3;
    var f1 := EncodeOctal(h.mode, 8) + f2;
    assert block[0..] == Padded(name, 100) + (f1 + rest);
    Peel(block, 0, Padded(name, 100), f1 + rest);
    assert f1 + rest == EncodeOctal(h.mode, 8) + (f2 + rest);
    Peel(block, 100, EncodeOctal(h.mode, 8), f2 + rest);
    assert f2 + rest == EncodeOctal(x.uid, 8) + (f3 + rest);
    Peel(block, 108, EncodeOctal(x.uid, 8), f3 + rest);
    assert f3 + rest == EncodeOctal(x.gid, 8) + (f4 + rest);
    Peel(block, 116, EncodeOctal(x.gid, 8), f4 + rest);
    assert f4 + rest == EncodeOctal(h.size, 12) + (f5 + rest);
    Peel(block, 124, EncodeOctal(h.size, 12), f5 + rest);
    Peel(block, 136, f5, rest);
  }

  lemma SecondFields(block: Bytes, h: Header, prefix: Bytes, x: Ignored)
    requires |prefix| <= 155 && |LinkOf(h.kind)| <= 100 && IgnoredOk(x) && |block| == 512
    requires block[156..] == SecondPart(h, prefix, x)
    ensures block[156] == TypeOf(h.kind) && block[157..257] == Padded(LinkOf(h.kind), 100) && block[257..263] == MAGIC && block[263..265] == USTAR_VERSION
    ensures block[265..297] == Padded(x.user, 32) && block[297..329] == Padded(x.group, 32) && block[329..337] == Zeros(8) && block[337..345] == Zeros(8)
    ensures block[345..500] == Padded(prefix, 155) && block[500..512] == Zeros(12)
  {
    hide Padded, CleanText, Zeros, TypeOf, LinkOf;
    var f9 := Zeros(12);
    var f8 := Padded(prefix, 155) + f9;
    var f7 := Zeros(8) + f8;
    var f6 := Zeros(8) + f7;
    var f5 := Padded(x.group, 32) + f6;
    var f4 := Padded(x.user, 32) + f5;
    var f3 := USTAR_VERSION + f4;
    var f2 := MAGIC + f3;
    var f1 := Padded(LinkOf(h.kind), 100) + f2;
    Peel(block, 156, [TypeOf(h.kind)], f1);
    assert block[156] == block[156..157][0];
    Peel(block, 157, Padded(LinkOf(h.kind), 100), f2);
    Peel(block, 257, MAGIC, f3);
    Peel(block, 263, USTAR_VERSION, f4);
    Peel(block, 265, Padded(x.user, 32), f5);
    Peel(block, 297, Padded(x.group, 32), f6);
    Peel(block, 329, Zeros(8), f7);
    Peel(block, 337, Zeros(8), f8);
    Peel(block, 345, Padded(prefix, 155), f9);
    assert block[500..512] == block[500..];
  }

  lemma ChecksumWritten(first: Bytes, second: Bytes, block: Bytes)
    requires |first| == 148 && |second| == 356
    requires SumBytes(first) + 8 * 32 + SumBytes(second) < Power8(6)
    requires block == first + (OctalDigits(SumBytes(first) + 8 * 32 + SumBytes(second), 6) + ([0, 32] + second))
    ensures |block| == 512 && ChecksumHolds(block) && block[156..] == second
  {
    hide SumBytes, OctalValue, Power8;
    var sum := SumBytes(first) + 8 * 32 + SumBytes(second);
    var digits := OctalDigits(sum, 6);
    assert block[0..] == first + (digits + ([0, 32] + second));
    Peel(block, 0, first, digits + ([0, 32] + second));
    Peel(block, 148, digits, [0, 32] + second);
    Peel(block, 154, [0, 32], second);
    assert block[154] == block[154..156][0] && block[155] == block[154..156][1];
    assert block[0..148] == block[..148];
    OctalDigitsValue(sum, 6);
  }

  lemma FieldPadded(text: Bytes, width: nat)
    requires |text| <= width && 0 !in text
    ensures FieldBytes(Padded(text, width)) == Some(text)
  {
    FieldRoundTrip(text, width - |text|);
  }

  /** Every writable header is read back as it was, whatever the ignored fields hold. */
  lemma HeaderRoundTrip(limits: Limits, h: Header, prefix: Bytes, name: Bytes, x: Ignored)
    requires Writable(limits, h, prefix, name, x)
    ensures ParseHeader(limits, EncodeHeader(limits, h, prefix, name, x)) == Some(h)
  {
    hide PathTextOk, KindOf, Padded, EncodeOctal, ParseOctal, FieldBytes, ChecksumHolds, Split, JoinedPath, Power8, SumBytes, OctalDigits, CleanText, FirstPart, SecondPart;
    var block := EncodeHeader(limits, h, prefix, name, x);
    var first, second := FirstPart(h, name, x), SecondPart(h, prefix, x);
    SumFits(first, second);
    var sum := SumBytes(first) + 8 * 32 + SumBytes(second);
    ChecksumWritten(first, second, block);
    FirstFields(block, h, name, x, OctalDigits(sum, 6) + ([0, 32] + second));
    SecondFields(block, h, prefix, x);
    OctalRoundTrip(h.mode, 8);
    OctalRoundTrip(x.uid, 8);
    OctalRoundTrip(x.gid, 8);
    OctalRoundTrip(h.size, 12);
    OctalRoundTrip(x.mtime, 12);
    FieldPadded(name, 100);
    FieldPadded(prefix, 155);
    FieldPadded(LinkOf(h.kind), 100);
    FieldPadded(x.user, 32);
    FieldPadded(x.group, 32);
  }
}
