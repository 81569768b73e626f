/** The manifest of a deduplicated pack, of which retention needs the member blobs and their lengths. */
module PackManifest {
  import opened Base
  import opened Wire
  import opened Store
  import CanonicalCodec

  const ENCODING_VERSION: nat := 1
  const MAX_MEMBERS: nat := 100_000
  const MAX_MEMBER_PATH_BYTES: nat := 1024
  const MAX_DIGEST_BYTES: nat := 128

  // "malm-pack-manifest-object-v1" NUL
  const DOMAIN: Bytes := [109, 97, 108, 109, 45, 112, 97, 99, 107, 45, 109, 97, 110, 105, 102, 101, 115, 116, 45, 111, 98, 106, 101, 99, 116, 45, 118, 49, 0]

  /** A member with its path, which is skipped. */
  datatype Listed = Listed(path: Bytes, member: Member)

  ghost predicate ListedOk(e: Listed) {
    |e.path| <= MAX_MEMBER_PATH_BYTES && CanonicalCodec.ValidDigest(e.member.blob) && e.member.byteLen < U64_END
  }

  ghost function EncodeListed(e: Listed): Bytes
    requires ListedOk(e)
  {
    Widths();
    EncodeText(e.path) + (EncodeText(e.member.blob.text) + BigEndian(e.member.byteLen, 8))
  }

  ghost predicate AllListedOk(list: seq<Listed>) { forall i :: 0 <= i < |list| ==> ListedOk(list[i]) }

  ghost function EncodeList(list: seq<Listed>): Bytes
    requires AllListedOk(list)
  {
    if list == [] then [] else EncodeListed(list[0]) + EncodeList(list[1..])
  }

  ghost function EncodeManifest(list: seq<Listed>): Bytes
    requires AllListedOk(list) && |list| < U64_END
  {
    Widths();
    DOMAIN + (BigEndian(ENCODING_VERSION, 2) + (BigEndian(|list|, 8) + EncodeList(list)))
  }

  ghost predicate EncodesManifest(bytes: Bytes, list: seq<Listed>) {
    AllListedOk(list) && |list| <= MAX_MEMBERS && EncodeManifest(list) == bytes
  }

  function MembersOf(list: seq<Listed>): seq<Member> { seq(|list|, i requires 0 <= i < |list| => list[i].member) }

  /** No encoded entry is a proper beginning of another. */
  lemma ListedPrefix(a: Listed, x: Bytes, b: Listed, y: Bytes)
    requires ListedOk(a) && ListedOk(b) && EncodeListed(a) + x == EncodeListed(b) + y
    ensures a == b && x == y
  {
    hide EncodeText, BigEndian, Power256;
    Widths();
    var ta, tb := EncodeText(a.member.blob.text), EncodeText(b.member.blob.text);
    var na, nb := BigEndian(a.member.byteLen, 8), BigEndian(b.member.byteLen, 8);
    assert EncodeListed(a) + x == EncodeText(a.path) + (ta + (na + x));
    assert EncodeListed(b) + y == EncodeText(b.path) + (tb + (nb + y));
    TextPrefix(a.path, ta + (na + x), b.path, tb + (nb + y));
    TextPrefix(a.member.blob.text, na + x, b.member.blob.text, nb + y);
    FixedPrefix(a.member.byteLen, b.member.byteLen, 8, x, y);
  }

  /** `remaining` is the encoding of exactly `n` more entries. */
  ghost predicate Decodable(remaining: Bytes, n: nat, list: seq<Listed>) {
    AllListedOk(list) && |list| == n && EncodeList(list) == remaining
  }

  lemma FirstListed(remaining: Bytes, n: nat, list: seq<Listed>)
    requires n > 0 && Decodable(remaining, n, list)
    ensures ListedOk(list[0]) && Decodable(EncodeList(list[1..]), n - 1, list[1..]) && remaining == EncodeListed(list[0]) + EncodeList(list[1..])
  {
    hide EncodeListed, ListedOk;
  }

  /** After one entry has been read, the rest of every possible reading is a reading of the rest. */
  lemma OneRead(before: Bytes, n: nat, e: Listed, after: Bytes)
    requires n > 0 && ListedOk(e) && before == EncodeListed(e) + after
    ensures forall list :: Decodable(before, n, list) ==> list[0] == e && Decodable(after, n - 1, list[1..])
  {
    hide EncodeListed, ListedOk;
    forall list | Decodable(before, n, list) ensures list[0] == e && Decodable(after, n - 1, list[1..]) {
      FirstListed(before, n, list);
      ListedPrefix(e, after, list[0], EncodeList(list[1..]));
    }
  }

  /** One entry, or proof that none is at the front of the stream. */
  method TakeListed(reader: Reader) returns (r: Option<Listed>)
    modifies reader
    ensures r.Some? ==> ListedOk(r.value) && old(reader.remaining) == EncodeListed(r.value) + reader.remaining
    ensures r.None? ==> forall e, rest :: ListedOk(e) ==> old(reader.remaining) != EncodeListed(e) + rest
  {
    hide EncodeText, BigEndian, Power256;
    Widths();
    ghost var start := reader.remaining;
    var path := reader.Text(MAX_MEMBER_PATH_BYTES);
    forall e, rest | ListedOk(e) && start == EncodeListed(e) + rest
      ensures path.Some? && e.path == path.value
      ensures reader.remaining == EncodeText(e.member.blob.text) + (BigEndian(e.member.byteLen, 8) + rest)
    {
      var tail := EncodeText(e.member.blob.text) + (BigEndian(e.member.byteLen, 8) + rest);
      assert start == EncodeText(e.path) + tail;
      TextPrefix(path.value, reader.remaining, e.path, tail);
    }
    if path.None? {
      return None;
    }
    ghost var second := reader.remaining;
    var text := reader.Text(MAX_DIGEST_BYTES);
    forall e, rest | ListedOk(e) && start == EncodeListed(e) + rest
      ensures text.Some? && e.member.blob == Digest(text.value) && reader.remaining == BigEndian(e.member.byteLen, 8) + rest
    {
      DigestLength(e.member.blob);
      TextPrefix(text.value, reader.remaining, e.member.blob.text, BigEndian(e.member.byteLen, 8) + rest);
    }
    if text.None? || !CanonicalCodec.ValidDigest(Digest(text.value)) {
      return None;
    }
    var byteLen := reader.Fixed(8);
    if byteLen.None? {
      return None;
    }
    assert start == EncodeText(path.value) + (EncodeText(text.value) + BigEndian(byteLen.value, 8)) + reader.remaining;
    r := Some(Listed(path.value, Member(Digest(text.value), byteLen.value)));
  }

  lemma DigestLength(d: Digest)
    requires CanonicalCodec.ValidDigest(d)
    ensures |d.text| <= MAX_DIGEST_BYTES
  {
  }

  /** Reads the entries that the count announces, and nothing else may follow. */
  method TakeAll(bytes: Bytes, count: nat) returns (r: Option<seq<Listed>>)
    ensures r.Some? ==> Decodable(bytes, count, r.value)
    ensures r.None? ==> forall list :: !Decodable(bytes, count, list)
  {
    hide EncodeListed, ListedOk, Decodable;
    var reader := new Reader(bytes);
    var done: seq<Listed> := [];
    NothingTaken(bytes, count);
    while |done| < count
      invariant |done| <= count && TakenSoFar(bytes, count, done, reader.remaining)
      decreases count - |done|
    {
      ghost var before := reader.remaining;
      var e := TakeListed(reader);
      if e.None? {
        NoneLeft(bytes, count, done, before);
        return None;
      }
      OneMoreTaken(bytes, count, done, before, e.value, reader.remaining);
      done := done + [e.value];
    }
    AllTaken(bytes, count, done, reader.remaining);
    r := if reader.remaining == [] then Some(done) else None;
  }

  /** Every reading of the whole starts with what has been taken and continues with a reading of the rest, and
      every reading of the rest makes one of the whole. */
  ghost predicate TakenSoFar(bytes: Bytes, count: nat, done: seq<Listed>, remaining: Bytes)
    requires |done| <= count
  {
    && (forall list :: Decodable(bytes, count, list) ==> done <= list && Decodable(remaining, count - |done|, list[|done|..]))
    && (forall rest :: Decodable(remaining, count - |done|, rest) ==> Decodable(bytes, count, done + rest))
  }

  lemma NothingTaken(bytes: Bytes, count: nat)
    ensures TakenSoFar(bytes, count, [], bytes)
  {
    forall list: seq<Listed> ensures list[0..] == list && [] + list == list {
    }
  }

  lemma OneMoreTaken(bytes: Bytes, count: nat, done: seq<Listed>, before: Bytes, e: Listed, after: Bytes)
    requires |done| < count && TakenSoFar(bytes, count, done, before) && ListedOk(e) && before == EncodeListed(e) + after
    ensures TakenSoFar(bytes, count, done + [e], after)
  {
    hide EncodeListed, ListedOk;
    var n, more := |done|, done + [e];
    OneRead(before, count - n, e, after);
    forall list | Decodable(bytes, count, list) ensures more <= list && Decodable(after, count - n - 1, list[n + 1..]) {
      assert list[n..][1..] == list[n + 1..] && list[n..][0] == list[n];
    }
    forall rest | Decodable(after, count - n - 1, rest) ensures Decodable(bytes, count, more + rest) {
      var longer := [e] + rest;
      assert longer[1..] == rest;
      assert Decodable(before, count - n, longer);
      assert done + longer == more + rest;
    }
  }

  lemma NoneLeft(bytes: Bytes, count: nat, done: seq<Listed>, before: Bytes)
    requires |done| < count && TakenSoFar(bytes, count, done, before)
    requires forall e, rest :: ListedOk(e) ==> before != EncodeListed(e) + rest
    ensures forall list :: !Decodable(bytes, count, list)
  {
    forall list ensures !Decodable(bytes, count, list) {
      if Decodable(bytes, count, list) {
        ListedAhead(bytes, count, done, before, list);
      }
    }
  }

  lemma ListedAhead(bytes: Bytes, count: nat, done: seq<Listed>, before: Bytes, list: seq<Listed>)
    requires |done| < count && TakenSoFar(bytes, count, done, before) && Decodable(bytes, count, list)
    ensures exists e, rest :: ListedOk(e) && before == EncodeListed(e) + rest
  {
    hide EncodeListed, ListedOk;
    FirstListed(before, count - |done|, list[|done|..]);
  }

  lemma AllTaken(bytes: Bytes, count: nat, done: seq<Listed>, remaining: Bytes)
    requires |done| == count && TakenSoFar(bytes, count, done, remaining)
    ensures remaining == [] ==> Decodable(bytes, count, done)
    ensures remaining != [] ==> forall list :: !Decodable(bytes, count, list)
  {
    assert remaining == [] ==> Decodable(remaining, 0, []);
    assert done + [] == done;
  }

  /** Accepts exactly the encodings of valid manifests, and returns the members listed. */
  method DecodeMembers(bytes: Bytes) returns (r: Option<seq<Member>>, ghost list: seq<Listed>)
    ensures r.Some? ==> EncodesManifest(bytes, list) && r.value == MembersOf(list)
    ensures r.None? ==> forall other :: !EncodesManifest(bytes, other)
  {
    hide EncodeList, ListedOk, BigEndian, Power256, Decodable, EncodesManifest;
    list := [];
    var count, rest := ReadHeader(bytes);
    if count.None? {
      return None, list;
    }
    HeaderDecides(bytes, count.value, rest);
    if count.value > MAX_MEMBERS {
      return None, list;
    }
    var taken := TakeAll(rest, count.value);
    if taken.None? {
      return None, list;
    }
    list := taken.value;
    r := Some(MembersOf(taken.value));
  }

  ghost function ManifestBytes(count: nat, rest: Bytes): Bytes
    requires count < U64_END
  {
    Widths();
    DOMAIN + (BigEndian(ENCODING_VERSION, 2) + (BigEndian(count, 8) + rest))
  }

  lemma HeaderDecides(bytes: Bytes, count: nat, rest: Bytes)
    requires count < U64_END && bytes == ManifestBytes(count, rest)
    ensures forall list :: EncodesManifest(bytes, list) <==> count <= MAX_MEMBERS && Decodable(rest, count, list)
  {
    hide EncodeList, ListedOk, BigEndian, Power256;
    Widths();
    forall list | AllListedOk(list) && |list| <= MAX_MEMBERS && EncodeManifest(list) == bytes ensures |list| == count && EncodeList(list) == rest {
      SplitEqual(DOMAIN, BigEndian(ENCODING_VERSION, 2) + (BigEndian(count, 8) + rest), DOMAIN, BigEndian(ENCODING_VERSION, 2) + (BigEndian(|list|, 8) + EncodeList(list)));
      FixedPrefix(ENCODING_VERSION, ENCODING_VERSION, 2, BigEndian(count, 8) + rest, BigEndian(|list|, 8) + EncodeList(list));
      FixedPrefix(count, |list|, 8, rest, EncodeList(list));
    }
  }

  /** Domain, version and member count. */
  method ReadHeader(bytes: Bytes) returns (count: Option<nat>, rest: Bytes)
    ensures count.Some? ==> count.value < U64_END && bytes == ManifestBytes(count.value, rest)
    ensures count.None? ==> forall list :: !EncodesManifest(bytes, list)
  {
    hide EncodeList, ListedOk, BigEndian, Power256;
    Widths();
    var reader := new Reader(bytes);
    var ok := reader.Expect(DOMAIN);
    if !ok {
      return None, bytes;
    }
    ghost var tail := reader.remaining;
    forall list | EncodesManifest(bytes, list) ensures tail == BigEndian(ENCODING_VERSION, 2) + (BigEndian(|list|, 8) + EncodeList(list)) {
      SplitEqual(DOMAIN, tail, DOMAIN, BigEndian(ENCODING_VERSION, 2) + (BigEndian(|list|, 8) + EncodeList(list)));
    }
    var version := reader.Fixed(2);
    if version.None? {
      return None, bytes;
    }
    forall list | EncodesManifest(bytes, list) ensures version.value == ENCODING_VERSION && reader.remaining == BigEndian(|list|, 8) + EncodeList(list) {
      FixedPrefix(version.value, ENCODING_VERSION, 2, reader.remaining, BigEndian(|list|, 8) + EncodeList(list));
    }
    if version.value != ENCODING_VERSION {
      return None, bytes;
    }
    count := reader.Fixed(8);
    rest := reader.remaining;
  }

  /** A manifest determines its members. */
  lemma ManifestInjective(bytes: Bytes, a: seq<Listed>, b: seq<Listed>)
    requires EncodesManifest(bytes, a) && EncodesManifest(bytes, b)
    ensures a == b
  {
    hide EncodeList, ListedOk, BigEndian, Power256, EncodeListed;
    assert bytes == ManifestBytes(|a|, EncodeList(a));
    HeaderDecides(bytes, |a|, EncodeList(a));
    ListInjective(a, b);
  }

  lemma {:induction false} ListInjective(a: seq<Listed>, b: seq<Listed>)
    requires AllListedOk(a) && AllListedOk(b) && |a| == |b| && EncodeList(a) == EncodeList(b)
    ensures a == b
  {
    hide ListedOk, EncodeListed;
    if a != [] {
      ListedPrefix(a[0], EncodeList(a[1..]), b[0], EncodeList(b[1..]));
      ListInjective(a[1..], b[1..]);
      assert a == [a[0]] + a[1..] && b == [b[0]] + b[1..];
    }
  }
}
