/** Decoding an archive from a reader: the result is a function of the bytes, however the reader delivers them. */
module ArchiveDecode {
  import opened Base
  import opened Text
  import opened Canonical
  import opened Ustar
  import opened ArchiveTree
  import opened ArchiveEntries
  import opened ArchiveState
  import opened ArchiveFormat
  import opened PayloadReader

  const DECODER_VERSION: nat := 1

  datatype Declaration = Declaration(version: nat, byteLen: nat, digest: Digest)

  datatype DecodeError = UnsupportedVersion | TooLarge | Reading(e: ReadError) | DigestMismatch | Malformed

  /** What decoding a stream of bytes must come to. */
  ghost function Expected(limits: Limits, hash: Hash, stream: Bytes, d: Declaration): Result<Flat, DecodeError> {
    if d.version != DECODER_VERSION then Failure(UnsupportedVersion)
    else if d.byteLen > limits.payloadBytes then Failure(TooLarge)
    else if |stream| < d.byteLen then Failure(Reading(Truncated))
    else if |stream| > d.byteLen then Failure(Reading(TrailingBytes))
    else if hash(stream) != d.digest then Failure(DigestMismatch)
    else
      var parsed := Parse(limits, hash, stream);
      if parsed.Some? then Success(parsed.value) else Failure(Malformed)
  }

  datatype Progress = Accepted | Refused | Broken(e: ReadError)

  /** A partly decoded payload: the entries so far, the state they led to, and what is still to come. */
  ghost predicate Decoding(limits: Limits, hash: Hash, payload: Bytes, done: seq<Item>, offset: nat, s: Flat) {
    && offset <= |payload| && Aligned(offset) && Run(limits, hash, done) == Some(s)
    && ItemsFrom(limits, payload, 0) == Prepend(done, ItemsFrom(limits, payload, offset))
  }

  /** After the first `length` bytes of the payload nothing can come of it. */
  ghost predicate Hopeless(limits: Limits, hash: Hash, payload: Bytes) { Parse(limits, hash, payload).None? }

  lemma StartDecoding(limits: Limits, hash: Hash, payload: Bytes)
    ensures Decoding(limits, hash, payload, [], 0, EMPTY)
  {
    var items := ItemsFrom(limits, payload, 0);
    if items.Some? {
      assert [] + items.value == items.value;
    }
  }

  /** Nothing to read at the current offset. */
  lemma DeadEnd(limits: Limits, hash: Hash, payload: Bytes, done: seq<Item>, offset: nat, s: Flat)
    requires Decoding(limits, hash, payload, done, offset, s) && ItemsFrom(limits, payload, offset).None?
    ensures Hopeless(limits, hash, payload)
  {
  }

  /** No room for another block. */
  lemma BlockRefused(limits: Limits, hash: Hash, payload: Bytes, done: seq<Item>, offset: nat, s: Flat)
    requires Decoding(limits, hash, payload, done, offset, s)
    requires s.metadata + BLOCK_BYTES > limits.metadataBytes || s.work + 1 > limits.workUnits
    ensures Hopeless(limits, hash, payload)
  {
    hide ItemsFrom, Run, Finish;
    var rest := ItemsFrom(limits, payload, offset);
    if rest.Some? {
      NoMoreBlocks(limits, hash, done, rest.value);
    }
  }

  /** The next entry, when there is one. */
  ghost predicate EntryAhead(limits: Limits, payload: Bytes, offset: nat, h: Header) {
    offset + BLOCK_BYTES <= |payload| && !IsZero(payload[offset..offset + BLOCK_BYTES]) && HeaderAt(limits, payload, offset) == Some(h)
  }

  lemma EntryRefused(limits: Limits, hash: Hash, payload: Bytes, done: seq<Item>, offset: nat, s: Flat, h: Header)
    requires Decoding(limits, hash, payload, done, offset, s) && EntryAhead(limits, payload, offset, h)
    requires BodyAt(payload, offset + BLOCK_BYTES, h).Some? ==>
      Step(limits, hash, s, ItemOf(h, BodyAt(payload, offset + BLOCK_BYTES, h).value)).None?
    ensures Hopeless(limits, hash, payload)
  {
    hide Run, Step, HeaderAt, BodyAt, BodyBytes, ItemOf;
    var body := BodyAt(payload, offset + BLOCK_BYTES, h);
    if body.Some? && ItemsFrom(limits, payload, offset).Some? {
      var x := ItemOf(h, body.value);
      NextBlock(offset, h);
      var rest := ItemsFrom(limits, payload, offset + BLOCK_BYTES + BodyBytes(h));
      RunNext(limits, hash, done, x);
      RunStuck(limits, hash, done + [x], rest.value);
      assert done + ([x] + rest.value) == done + [x] + rest.value;
    }
  }

  lemma EntryTaken(limits: Limits, hash: Hash, payload: Bytes, done: seq<Item>, offset: nat, s: Flat, h: Header)
    requires Decoding(limits, hash, payload, done, offset, s) && EntryAhead(limits, payload, offset, h)
    requires BodyAt(payload, offset + BLOCK_BYTES, h).Some?
    requires Step(limits, hash, s, ItemOf(h, BodyAt(payload, offset + BLOCK_BYTES, h).value)).Some?
    ensures var x := ItemOf(h, BodyAt(payload, offset + BLOCK_BYTES, h).value);
      Decoding(limits, hash, payload, done + [x], offset + BLOCK_BYTES + BodyBytes(h), Step(limits, hash, s, x).value)
  {
    hide Run, Step, HeaderAt, BodyAt, BodyBytes, ItemOf, Aligned;
    var x := ItemOf(h, BodyAt(payload, offset + BLOCK_BYTES, h).value);
    NextBlock(offset, h);
    RunNext(limits, hash, done, x);
    BodyWithin(payload, offset + BLOCK_BYTES, h);
    var rest := ItemsFrom(limits, payload, offset + BLOCK_BYTES + BodyBytes(h));
    if rest.Some? {
      assert done + ([x] + rest.value) == done + [x] + rest.value;
    }
  }

  lemma BodyWithin(payload: Bytes, start: nat, h: Header)
    requires BodyAt(payload, start, h).Some?
    ensures start + BodyBytes(h) <= |payload|
  {
  }

  /** The payload ends here, and both terminating blocks can be charged or not. */
  lemma Terminated(limits: Limits, hash: Hash, payload: Bytes, done: seq<Item>, offset: nat, s: Flat)
    requires Decoding(limits, hash, payload, done, offset, s) && ItemsFrom(limits, payload, offset) == Some([])
    ensures Parse(limits, hash, payload) == Finish(limits, Some(s))
  {
    assert done + [] == done;
  }

  // ----- Entries as they are charged

  /** The state after the header block has been charged. */
  ghost function Opened(s: Flat): Flat { s.(metadata := s.metadata + BLOCK_BYTES, work := s.work + 1) }

  /** The state after a leaf has been charged and its place reserved. */
  ghost function Reserved(s: Flat, h: Header): Flat {
    var x := ItemOf(h, []);
    s.(nodes := WithParents(s.nodes, h.path), metadata := s.metadata + BLOCK_BYTES,
       expanded := s.expanded + (if h.kind.FileKind? then h.size else 0), work := s.work + HeaderWork(h))
  }

  function HeaderWork(h: Header): nat {
    1 + |h.path| + match h.kind
      case FileKind => Blocks(h.size)
      case DirectoryKind => 0
      case LinkKind(target) => |Split(target)|
  }

  /** What must hold before the body of a leaf is read. */
  ghost predicate Reservable(limits: Limits, s: Flat, h: Header) {
    && h.path != [] && (h.kind.FileKind? ==> h.size <= limits.fileBytes && s.expanded + h.size <= limits.expandedBytes)
    && s.metadata + BLOCK_BYTES <= limits.metadataBytes && s.work + HeaderWork(h) <= limits.workUnits
    && ParentsOk(s.nodes, h.path) && h.path !in s.nodes && |WithParents(s.nodes, h.path)| + 1 <= limits.entries
  }

  lemma ItemWork(h: Header, content: Bytes)
    requires h.kind.FileKind? ==> |content| == h.size
    ensures var x := ItemOf(h, content);
      WorkOf(x) == HeaderWork(h) && x.path == h.path && SizeOf(x) == if h.kind.FileKind? then h.size else 0
    ensures IsLeaf(ItemOf(h, content)) <==> !h.kind.DirectoryKind?
  {
  }

  /** A leaf is accepted exactly when its place can be reserved and its object admitted. */
  lemma LeafStep(limits: Limits, hash: Hash, s: Flat, h: Header, content: Bytes)
    requires !h.kind.DirectoryKind? && (h.kind.FileKind? ==> |content| == h.size) && s.expanded <= limits.expandedBytes && s.objectBytes <= limits.objectBytes
    ensures var x := ItemOf(h, content); var b := EncodingOf(x);
      && (Step(limits, hash, s, x).Some? <==>
           Reservable(limits, s, h) && !Collides(hash, s.stored, b) && (b in s.stored || s.objectBytes + |b| <= limits.objectBytes))
      && (Reservable(limits, s, h) ==>
           After(hash, s, x) == Reserved(s, h).(nodes := WithParents(s.nodes, h.path)[h.path := ItemShape(hash, x)], stored := s.stored + {b},
             objectBytes := s.objectBytes + (if b in s.stored then 0 else |b|)))
  {
    hide WorkOf, HeaderWork, EncodingOf, ItemShape, WithParents, ParentsOk, Collides;
    var x := ItemOf(h, content);
    ItemWork(h, content);
    SizeWithOneMore(WithParents(s.nodes, h.path), h.path, ItemShape(hash, x));
    if ParentsOk(s.nodes, h.path) {
      ParentsTwice(s.nodes, h.path);
    }
  }

  lemma DirectoryStep(limits: Limits, hash: Hash, s: Flat, h: Header)
    requires h.kind.DirectoryKind? && h.path != [] && s.expanded <= limits.expandedBytes && s.objectBytes <= limits.objectBytes
    ensures var x := DirectoryItem(h.path, h.mode); var nodes := WithParents(s.nodes, h.path)[h.path := DirectoryShape(h.mode, true)];
      && ItemOf(h, []) == x
      && (Step(limits, hash, s, x).Some? <==>
           ParentsOk(s.nodes, h.path) && Free(s.nodes, x) && |nodes| <= limits.entries
           && s.metadata + BLOCK_BYTES <= limits.metadataBytes && s.work + HeaderWork(h) <= limits.workUnits)
      && After(hash, s, x) == s.(nodes := nodes, metadata := s.metadata + BLOCK_BYTES, work := s.work + HeaderWork(h))
  {
    hide WithParents, ParentsOk, Free;
  }

  lemma {:induction false} RunWithin(limits: Limits, hash: Hash, done: seq<Item>)
    requires Run(limits, hash, done).Some?
    ensures WithinLimits(limits, Run(limits, hash, done).value)
  {
    hide ItemOk, ParentsOk, Free, Collides;
    if done == [] {
      assert EMPTY.nodes == map[];
    }
  }

  /** Charges a leaf and makes sure there is a place for it, before anything of its body is read. */
  method ReserveLeaf(state: ParseState, h: Header, ghost s: Flat) returns (ok: bool)
    requires !h.kind.DirectoryKind? && h.path != [] && WithinLimits(state.limits, s) && state.ShowsState(Opened(s))
    requires s.metadata + BLOCK_BYTES <= state.limits.metadataBytes
    modifies state
    ensures ok <==> Reservable(state.limits, s, h)
    ensures ok ==> state.ShowsState(Reserved(s, h))
  {
    hide WithParents, ParentsOk, Shows, Indexes, Split;
    var limits := state.limits;
    if h.kind.FileKind? {
      if h.size > limits.fileBytes || state.expandedFileBytes + h.size > limits.expandedBytes {
        return false;
      }
      state.expandedFileBytes := state.expandedFileBytes + h.size;
    }
    ok := state.ChargeWork(|h.path| + if h.kind.LinkKind? then |Split(h.kind.target)| else 0);
    if !ok {
      return;
    }
    ok := state.ReserveLeafPath(h.path, s.nodes);
    if !ok {
      return;
    }
    ok := state.ChargeWork(if h.kind.FileKind? then Blocks(h.size) else 0);
  }

  /** Stores the object of a reserved leaf and puts the leaf in its place. */
  method StoreLeaf(state: ParseState, h: Header, content: Bytes, ghost s: Flat) returns (ok: bool)
    requires !h.kind.DirectoryKind? && (h.kind.FileKind? ==> |content| == h.size)
    requires Reservable(state.limits, s, h) && WithinLimits(state.limits, s) && state.ShowsState(Reserved(s, h))
    modifies state
    ensures ok <==> Step(state.limits, state.hash, s, ItemOf(h, content)).Some?
    ensures ok ==> state.ShowsState(Step(state.limits, state.hash, s, ItemOf(h, content)).value)
  {
    hide WithParents, ParentsOk, Shows, Indexes, Collides, EncodingOf, Step, HeaderWork, After;
    ghost var x := ItemOf(h, content);
    var encoded := EncodingOf(ItemOf(h, content));
    LeafStep(state.limits, state.hash, s, h, content);
    ok := state.AdmitObject(encoded, s.stored);
    if !ok {
      return;
    }
    var node := if h.kind.FileKind? then FileNode(h.mode, state.hash(encoded), h.size) else LinkNode(state.hash(encoded));
    state.InsertLeaf(h.path, node, s.nodes);
    assert ShapeOf(node) == ItemShape(state.hash, x);
    StepIsAfter(state.limits, state.hash, s, x);
  }

  lemma StepIsAfter(limits: Limits, hash: Hash, s: Flat, x: Item)
    ensures Step(limits, hash, s, x).Some? ==> Step(limits, hash, s, x).value == After(hash, s, x)
  {
    hide After, ItemOk, ParentsOk, Free, WithinLimits, Collides;
  }

  method TakeDirectory(state: ParseState, h: Header, ghost s: Flat) returns (ok: bool)
    requires h.kind.DirectoryKind? && h.path != [] && WithinLimits(state.limits, s) && state.ShowsState(Opened(s))
    requires s.metadata + BLOCK_BYTES <= state.limits.metadataBytes
    modifies state
    ensures ok <==> Step(state.limits, state.hash, s, ItemOf(h, [])).Some?
    ensures ok ==> state.ShowsState(Step(state.limits, state.hash, s, ItemOf(h, [])).value)
  {
    hide WithParents, ParentsOk, Shows, Indexes, Step, Free, After;
    DirectoryStep(state.limits, state.hash, s, h);
    StepIsAfter(state.limits, state.hash, s, ItemOf(h, []));
    ok := state.ChargeWork(|h.path|);
    if !ok {
      return;
    }
    ok := state.InsertDirectory(h.path, h.mode, s.nodes);
  }

  // ----- Reading entries

  /** What the reader delivers is the payload, as far as it goes. */
  ghost predicate Delivers(reader: ExactPayloadReader, payload: Bytes)
    reads reader
  {
    && reader.Valid()
    && payload == if |reader.stream| >= reader.expected then reader.stream[..reader.expected] else reader.stream
  }

  ghost predicate Explained(reader: ExactPayloadReader, e: ReadError)
    reads reader
  {
    && (e == Truncated ==> |reader.stream| < reader.expected)
    && (Transport(e) ==> reader.Excused(e)) && e != TrailingBytes
  }

  /** Reads part of the payload whose length has been checked against what remains. */
  method ReadPart(reader: ExactPayloadReader, length: nat, ghost payload: Bytes) returns (r: Result<Bytes, ReadError>)
    requires Delivers(reader, payload) && reader.consumed + length <= reader.expected
    modifies reader
    ensures Delivers(reader, payload)
    ensures r.Success? ==> reader.consumed == old(reader.consumed) + length <= |payload| && r.value == payload[old(reader.consumed)..reader.consumed]
    ensures r.Failure? ==> Explained(reader, r.error)
  {
    r := reader.ReadExact(length);
    if r.Success? {
      PrefixSlice(reader.stream, reader.expected, old(reader.consumed), reader.consumed);
    }
  }

  lemma PrefixSlice(stream: Bytes, length: nat, a: nat, b: nat)
    requires a <= b <= length && b <= |stream|
    ensures length <= |stream| ==> stream[..length][a..b] == stream[a..b]
  {
  }

  /** A file body in chunks. */
  method ReadBody(reader: ExactPayloadReader, size: nat, ghost payload: Bytes) returns (r: Result<Bytes, ReadError>)
    requires Delivers(reader, payload) && reader.consumed + size <= reader.expected
    modifies reader
    ensures Delivers(reader, payload)
    ensures r.Success? ==> reader.consumed == old(reader.consumed) + size <= |payload| && r.value == payload[old(reader.consumed)..reader.consumed]
    ensures r.Failure? ==> Explained(reader, r.error)
  {
    var content: Bytes, left := [], size;
    while left != 0
      invariant 0 <= left <= size && Delivers(reader, payload) && reader.consumed == old(reader.consumed) + size - left <= |payload|
      invariant content == payload[old(reader.consumed)..reader.consumed]
      decreases left
    {
      var part := ReadPart(reader, if left < FILE_CHUNK_BYTES then left else FILE_CHUNK_BYTES, payload);
      if part.Failure? {
        return Failure(part.error);
      }
      content, left := content + part.value, left - |part.value|;
    }
    r := Success(content);
  }

  /** A file entry: reserve its place, read body and padding, store it. */
  method TakeFile(reader: ExactPayloadReader, state: ParseState, h: Header, ghost s: Flat, ghost payload: Bytes)
    returns (p: Progress)
    requires h.kind.FileKind? && h.path != [] && WithinLimits(state.limits, s) && state.ShowsState(Opened(s))
    requires s.metadata + BLOCK_BYTES <= state.limits.metadataBytes && Delivers(reader, payload)
    modifies reader, state
    ensures Delivers(reader, payload)
    ensures p.Accepted? ==> Took(state.limits, state.hash, payload, old(reader.consumed), h, s, reader.consumed)
    ensures p.Accepted? ==> state.ShowsState(Step(state.limits, state.hash, s, ItemOf(h, BodyAt(payload, old(reader.consumed), h).value)).value)
    ensures p.Refused? && |reader.stream| >= reader.expected ==> Declined(state.limits, state.hash, payload, old(reader.consumed), h, s)
    ensures p.Broken? ==> Explained(reader, p.e)
  {
    hide Reservable, Reserved, Step, WithinLimits, Padding, ItemOf;
    ghost var start := reader.consumed;
    BodyMeans(payload, start, h);
    NeedsReservation(state.limits, state.hash, s, h, payload, start);
    var ok := ReserveLeaf(state, h, s);
    if !ok {
      return Refused;
    }
    var padding := Padding(h.size);
    if reader.Remaining() < h.size + padding {
      return Refused;
    }
    var body := ReadBody(reader, h.size, payload);
    if body.Failure? {
      return Broken(body.error);
    }
    var zeros := ReadPart(reader, padding, payload);
    if zeros.Failure? {
      return Broken(zeros.error);
    }
    if !IsZero(zeros.value) {
      return Refused;
    }
    ok := StoreLeaf(state, h, body.value, s);
    p := if ok then Accepted else Refused;
  }

  /** An entry has been read up to `end` and can be taken. */
  ghost predicate Took(limits: Limits, hash: Hash, payload: Bytes, start: nat, h: Header, s: Flat, end: nat) {
    && BodyAt(payload, start, h).Some? && end == start + BodyBytes(h)
    && Step(limits, hash, s, ItemOf(h, BodyAt(payload, start, h).value)).Some?
  }

  /** The entry has no sound body, or cannot be taken. */
  ghost predicate Declined(limits: Limits, hash: Hash, payload: Bytes, start: nat, h: Header, s: Flat) {
    BodyAt(payload, start, h).Some? ==> Step(limits, hash, s, ItemOf(h, BodyAt(payload, start, h).value)).None?
  }

  lemma BodyMeans(payload: Bytes, start: nat, h: Header)
    requires h.kind.FileKind?
    ensures BodyBytes(h) == h.size + Padding(h.size)
    ensures BodyAt(payload, start, h).Some? <==>
      start + BodyBytes(h) <= |payload| && IsZero(payload[start + h.size..start + BodyBytes(h)])
    ensures BodyAt(payload, start, h).Some? ==> BodyAt(payload, start, h).value == payload[start..start + h.size]
  {
  }

  lemma NeedsReservation(limits: Limits, hash: Hash, s: Flat, h: Header, payload: Bytes, start: nat)
    requires !h.kind.DirectoryKind? && WithinLimits(limits, s)
    ensures !Reservable(limits, s, h) ==> Declined(limits, hash, payload, start, h, s)
  {
    hide Reservable, Step, Reserved, After;
    var body := BodyAt(payload, start, h);
    if body.Some? {
      LeafStep(limits, hash, s, h, body.value);
    }
  }

  /** One entry after its header. */
  method TakeEntry(reader: ExactPayloadReader, state: ParseState, h: Header, ghost s: Flat, ghost payload: Bytes) returns (p: Progress)
    requires h.path != [] && WithinLimits(state.limits, s) && state.ShowsState(Opened(s))
    requires s.metadata + BLOCK_BYTES <= state.limits.metadataBytes && Delivers(reader, payload)
    modifies reader, state
    ensures Delivers(reader, payload)
    ensures p.Accepted? ==> Took(state.limits, state.hash, payload, old(reader.consumed), h, s, reader.consumed)
    ensures p.Accepted? ==> state.ShowsState(Step(state.limits, state.hash, s, ItemOf(h, BodyAt(payload, old(reader.consumed), h).value)).value)
    ensures p.Refused? && |reader.stream| >= reader.expected ==> Declined(state.limits, state.hash, payload, old(reader.consumed), h, s)
    ensures p.Broken? ==> Explained(reader, p.e)
  {
    hide Step, WithinLimits, Reservable, Reserved;
    match h.kind {
      case FileKind =>
        p := TakeFile(reader, state, h, s, payload);
      case DirectoryKind =>
        var ok := TakeDirectory(state, h, s);
        p := if ok then Accepted else Refused;
      case LinkKind(_) =>
        NeedsReservation(state.limits, state.hash, s, h, payload, reader.consumed);
        var ok := ReserveLeaf(state, h, s);
        if ok {
          ok := StoreLeaf(state, h, [], s);
        }
        p := if ok then Accepted else Refused;
    }
  }

  // ----- The block loop

  lemma DecodingState(limits: Limits, hash: Hash, payload: Bytes, done: seq<Item>, offset: nat, s: Flat)
    requires Decoding(limits, hash, payload, done, offset, s)
    ensures WithinLimits(limits, s) && offset <= |payload| && Aligned(offset)
  {
    RunWithin(limits, hash, done);
  }

  /** What the block at an offset means for the rest of the payload. */
  lemma BlockMeans(limits: Limits, payload: Bytes, offset: nat)
    requires offset + BLOCK_BYTES <= |payload| && Aligned(offset)
    ensures var block := payload[offset..offset + BLOCK_BYTES];
      && (IsZero(block) && |payload| == offset + 2 * BLOCK_BYTES && IsZero(payload[offset + BLOCK_BYTES..]) ==> ItemsFrom(limits, payload, offset) == Some([]))
      && (IsZero(block) && !(|payload| == offset + 2 * BLOCK_BYTES && IsZero(payload[offset + BLOCK_BYTES..])) ==> ItemsFrom(limits, payload, offset).None?)
      && (!IsZero(block) && ParseHeader(limits, block).None? ==> ItemsFrom(limits, payload, offset).None?)
      && (!IsZero(block) && ParseHeader(limits, block).Some? ==> EntryAhead(limits, payload, offset, ParseHeader(limits, block).value))
  {
    hide ParseHeader, IsZero, Aligned, BodyAt;
  }

  lemma HeaderPath(limits: Limits, block: Block)
    ensures ParseHeader(limits, block).Some? ==> ParseHeader(limits, block).value.path != []
  {
    hide FramingOk, PathTextOk, KindOf, FieldBytes, ParseOctal;
  }

  /** Reads blocks until the terminator, the first refusal, or a failing read. */
  method ParseUstar(reader: ExactPayloadReader, limits: Limits, hash: Hash, ghost payload: Bytes)
    returns (p: Progress, state: ParseState, ghost s: Flat)
    requires Delivers(reader, payload) && reader.consumed == 0
    modifies reader
    ensures Delivers(reader, payload)
    ensures p.Accepted? ==> |reader.stream| >= reader.expected && Parse(limits, hash, payload) == Some(s) && state.ShowsState(s)
    ensures p.Refused? && |reader.stream| >= reader.expected ==> Hopeless(limits, hash, payload)
    ensures p.Broken? ==> Explained(reader, p.e)
  {
    hide Decoding, WithinLimits, ParseHeader, IsZero, ItemsFrom, Step, Hopeless, Aligned, BodyAt, BodyBytes, Parse, Shows, Indexes, EntryAhead,
      ItemOf, Explained;
    state := new ParseState(limits, hash);
    s := EMPTY;
    ghost var done: seq<Item> := [];
    StartDecoding(limits, hash, payload);
    while true
      invariant Delivers(reader, payload) && Decoding(limits, hash, payload, done, reader.consumed, s)
      invariant state.limits == limits && state.hash == hash && state.ShowsState(s) && fresh(state)
      decreases reader.expected - reader.consumed
    {
      ghost var offset := reader.consumed;
      DecodingState(limits, hash, payload, done, offset, s);
      if reader.Remaining() < BLOCK_BYTES {
        TooShort(limits, hash, payload, done, offset, s);
        return Refused, state, s;
      }
      var ok := state.ChargeMetadataBlock();
      if !ok {
        BlockRefused(limits, hash, payload, done, offset, s);
        return Refused, state, s;
      }
      var read := ReadPart(reader, BLOCK_BYTES, payload);
      if read.Failure? {
        return Broken(read.error), state, s;
      }
      var block: Block := read.value;
      BlockMeans(limits, payload, offset);
      if IsZero(block) {
        p, s := ReadTerminator(reader, state, limits, hash, payload, done, s);
        return;
      }
      var parsed := ParseHeader(limits, block);
      if parsed.None? {
        DeadEnd(limits, hash, payload, done, offset, s);
        return Refused, state, s;
      }
      var h := parsed.value;
      HeaderPath(limits, block);
      p := TakeEntry(reader, state, h, s, payload);
      if p.Refused? {
        if |reader.stream| >= reader.expected {
          EntryRefused(limits, hash, payload, done, offset, s, h);
        }
        return;
      }
      if p.Broken? {
        return;
      }
      EntryTaken(limits, hash, payload, done, offset, s, h);
      ghost var x := ItemOf(h, BodyAt(payload, offset + BLOCK_BYTES, h).value);
      done, s := done + [x], Step(limits, hash, s, x).value;
    }
  }

  lemma TooShort(limits: Limits, hash: Hash, payload: Bytes, done: seq<Item>, offset: nat, s: Flat)
    requires Decoding(limits, hash, payload, done, offset, s) && |payload| < offset + BLOCK_BYTES
    ensures Hopeless(limits, hash, payload)
  {
    DeadEnd(limits, hash, payload, done, offset, s);
  }

  /** The second zero block, after which nothing may follow. */
  method ReadTerminator(reader: ExactPayloadReader, state: ParseState, limits: Limits, hash: Hash, ghost payload: Bytes, ghost done: seq<Item>, ghost s: Flat)
    returns (p: Progress, ghost last: Flat)
    requires Delivers(reader, payload) && reader.consumed >= BLOCK_BYTES && state.limits == limits && state.hash == hash
    requires Decoding(limits, hash, payload, done, reader.consumed - BLOCK_BYTES, s) && state.ShowsState(Opened(s))
    requires IsZero(payload[reader.consumed - BLOCK_BYTES..reader.consumed])
    requires s.metadata + BLOCK_BYTES <= limits.metadataBytes && s.work + 1 <= limits.workUnits
    modifies reader, state
    ensures Delivers(reader, payload)
    ensures p.Accepted? ==> |reader.stream| >= reader.expected && Parse(limits, hash, payload) == Some(last) && state.ShowsState(last)
    ensures p.Refused? && |reader.stream| >= reader.expected ==> Hopeless(limits, hash, payload)
    ensures p.Broken? ==> Explained(reader, p.e)
  {
    hide Decoding, ItemsFrom, Aligned, Shows, Indexes, Parse, Hopeless, IsZero, ParseHeader;
    last := s;
    ghost var offset: nat := reader.consumed - BLOCK_BYTES;
    DecodingState(limits, hash, payload, done, offset, s);
    BlockMeans(limits, payload, offset);
    if reader.Remaining() < BLOCK_BYTES {
      if |reader.stream| >= reader.expected {
        DeadEnd(limits, hash, payload, done, offset, s);
      }
      return Refused, last;
    }
    var ok := state.ChargeMetadataBlock();
    if !ok {
      if |reader.stream| >= reader.expected {
        LastBlockRefused(limits, hash, payload, done, offset, s);
      }
      return Refused, last;
    }
    var second := ReadPart(reader, BLOCK_BYTES, payload);
    if second.Failure? {
      return Broken(second.error), last;
    }
    if !IsZero(second.value) || reader.Remaining() != 0 {
      if |reader.stream| >= reader.expected {
        SecondBlock(limits, payload, offset);
        DeadEnd(limits, hash, payload, done, offset, s);
      }
      return Refused, last;
    }
    SecondBlock(limits, payload, offset);
    Terminated(limits, hash, payload, done, offset, s);
    last := s.(metadata := s.metadata + 2 * BLOCK_BYTES, work := s.work + 2);
    p := Accepted;
  }

  /** A second block that is not the zero block at the very end makes the payload unreadable. */
  lemma SecondBlock(limits: Limits, payload: Bytes, offset: nat)
    requires offset + 2 * BLOCK_BYTES <= |payload| && Aligned(offset) && IsZero(payload[offset..offset + BLOCK_BYTES])
    ensures |payload| == offset + 2 * BLOCK_BYTES && IsZero(payload[offset + BLOCK_BYTES..offset + 2 * BLOCK_BYTES]) ==>
      ItemsFrom(limits, payload, offset) == Some([])
    ensures !(|payload| == offset + 2 * BLOCK_BYTES && IsZero(payload[offset + BLOCK_BYTES..offset + 2 * BLOCK_BYTES])) ==>
      ItemsFrom(limits, payload, offset).None?
  {
    hide IsZero, Aligned, ParseHeader;
    BlockMeans(limits, payload, offset);
    if |payload| == offset + 2 * BLOCK_BYTES {
      assert payload[offset + BLOCK_BYTES..] == payload[offset + BLOCK_BYTES..offset + 2 * BLOCK_BYTES];
    }
  }

  /** After a zero block the payload must end with one more, which cannot be charged. */
  lemma LastBlockRefused(limits: Limits, hash: Hash, payload: Bytes, done: seq<Item>, offset: nat, s: Flat)
    requires Decoding(limits, hash, payload, done, offset, s) && offset + BLOCK_BYTES <= |payload| && IsZero(payload[offset..offset + BLOCK_BYTES])
    requires s.metadata + 2 * BLOCK_BYTES > limits.metadataBytes || s.work + 2 > limits.workUnits
    ensures Hopeless(limits, hash, payload)
  {
    hide IsZero, Run, ParseHeader, Aligned;
    if ItemsFrom(limits, payload, offset).Some? {
      assert ItemsFrom(limits, payload, offset) == Some([]);
      Terminated(limits, hash, payload, done, offset, s);
    }
  }

  // ----- The whole decoder

  /** Decodes a declared archive.  The outcome is the one expected of the bytes, unless the reader failed or the
      read budget ran out; a parse error is reported only after the whole payload was read and its digest found
      to match. */
  method DecodeArchive(stream: Bytes, attempts: nat -> Attempt, d: Declaration, callerLimits: Limits, hash: Hash)
    returns (r: Result<ParseState, DecodeError>, reader: ExactPayloadReader, ghost s: Flat)
    ensures reader.stream == stream && reader.attempts == attempts && reader.maxOperations == callerLimits.readOperations
    ensures var expected := Expected(Effective(callerLimits), hash, stream, d);
      || (r.Failure? && r.error.Reading? && Transport(r.error.e) && reader.Excused(r.error.e))
      || (if expected.Success? then r.Success? && s == expected.value && r.value.ShowsState(s) else r == Failure(expected.error))
  {
    hide Parse, Effective, Hopeless, Shows;
    var limits := Effective(callerLimits);
    EffectiveBudgets(callerLimits);
    reader := new ExactPayloadReader(stream, attempts, d.byteLen, callerLimits.readOperations);
    s := EMPTY;
    if d.version != DECODER_VERSION {
      return Failure(UnsupportedVersion), reader, s;
    }
    if d.byteLen > limits.payloadBytes {
      return Failure(TooLarge), reader, s;
    }
    ghost var payload := if |stream| >= d.byteLen then stream[..d.byteLen] else stream;
    var parsed, state;
    parsed, state, s := ParseUstar(reader, limits, hash, payload);
    var drained := reader.DrainVerifyEnd();
    if drained.Failure? {
      return Failure(Reading(drained.error)), reader, s;
    }
    assert payload == stream;
    if hash(drained.value) != d.digest {
      return Failure(DigestMismatch), reader, s;
    }
    match parsed {
      case Accepted => r := Success(state);
      case Refused =>
        assert Hopeless(limits, hash, payload);
        HopelessMeans(limits, hash, payload);
        r := Failure(Malformed);
      case Broken(e) => r := Failure(Reading(e));
    }
  }

  lemma HopelessMeans(limits: Limits, hash: Hash, payload: Bytes)
    requires Hopeless(limits, hash, payload)
    ensures Parse(limits, hash, payload).None?
  {
  }

  lemma EffectiveBudgets(l: Limits)
    ensures Effective(l).payloadBytes == l.payloadBytes && Effective(l).readOperations == l.readOperations
  {
  }
}
