/** The payload of an archive as a function of its bytes: headers, bodies and padding in 512-byte blocks, then
    two zero blocks and nothing else. */
module ArchiveFormat {
  import opened Base
  import opened Text
  import opened Canonical
  import opened Ustar
  import opened ArchiveTree
  import opened ArchiveEntries

  /** On a block boundary. */
  predicate Aligned(n: nat) { n % BLOCK_BYTES == 0 }

  predicate IsZero(b: Bytes) { forall i :: 0 <= i < |b| ==> b[i] == 0 }

  function Padding(size: nat): (n: nat)
    ensures n < BLOCK_BYTES && (size + n) % BLOCK_BYTES == 0
  {
    (BLOCK_BYTES - size % BLOCK_BYTES) % BLOCK_BYTES
  }

  function ItemOf(h: Header, content: Bytes): Item {
    match h.kind
    case FileKind => FileItem(h.path, h.mode, content)
    case DirectoryKind => DirectoryItem(h.path, h.mode)
    case LinkKind(target) => LinkItem(h.path, target)
  }

  function BodyBytes(h: Header): (n: nat)
    ensures Aligned(n) && if h.kind.FileKind? then h.size <= n else n == 0
  {
    if h.kind.FileKind? then h.size + Padding(h.size) else 0
  }

  lemma AddBlocks(a: nat, b: nat)
    requires Aligned(a) && Aligned(b)
    ensures Aligned(a + b)
  {
  }

  ghost function HeaderAt(limits: Limits, payload: Bytes, offset: nat): Option<Header>
    requires offset + BLOCK_BYTES <= |payload|
  {
    hide ParseHeader;
    ParseHeader(limits, payload[offset..offset + BLOCK_BYTES])
  }

  /** The body after a header: as many bytes as it declares, and zeros up to the next block. */
  ghost function BodyAt(payload: Bytes, start: nat, h: Header): (r: Option<Bytes>)
    ensures r.Some? ==> start + BodyBytes(h) <= |payload|
  {
    hide Padding;
    if !h.kind.FileKind? then (if start <= |payload| then Some([]) else None)
    else if |payload| < start + BodyBytes(h) || !IsZero(payload[start + h.size..start + BodyBytes(h)]) then None
    else Some(payload[start..start + h.size])
  }

  /** The entries from a block boundary on, up to the terminator at the very end. */
  ghost function ItemsFrom(limits: Limits, payload: Bytes, offset: nat): Option<seq<Item>>
    requires offset <= |payload| && Aligned(offset)
    decreases |payload| - offset
  {
    hide HeaderAt, BodyAt, BodyBytes, ItemOf, IsZero, Cons, Aligned;
    if |payload| < offset + BLOCK_BYTES then None
    else if IsZero(payload[offset..offset + BLOCK_BYTES]) then
      (if |payload| == offset + 2 * BLOCK_BYTES && IsZero(payload[offset + BLOCK_BYTES..]) then Some([]) else None)
    else
      var h := HeaderAt(limits, payload, offset);
      if h.None? then None else
        var body := BodyAt(payload, offset + BLOCK_BYTES, h.value);
        if body.None? then None else
          NextBlock(offset, h.value);
          Cons(ItemOf(h.value, body.value), ItemsFrom(limits, payload, offset + BLOCK_BYTES + BodyBytes(h.value)))
  }

  lemma NextBlock(offset: nat, h: Header)
    requires Aligned(offset)
    ensures Aligned(offset + BLOCK_BYTES + BodyBytes(h))
  {
    hide BodyBytes;
    AddBlocks(offset, BLOCK_BYTES);
    AddBlocks(offset + BLOCK_BYTES, BodyBytes(h));
  }

  ghost function Cons(x: Item, rest: Option<seq<Item>>): Option<seq<Item>> {
    if rest.None? then None else Some([x] + rest.value)
  }

  /** The two terminating blocks are charged like any other. */
  ghost function Finish(limits: Limits, s: Option<Flat>): Option<Flat> {
    if s.Some? && s.value.metadata + 2 * BLOCK_BYTES <= limits.metadataBytes && s.value.work + 2 <= limits.workUnits
    then Some(s.value.(metadata := s.value.metadata + 2 * BLOCK_BYTES, work := s.value.work + 2)) else None
  }

  ghost function Parse(limits: Limits, hash: Hash, payload: Bytes): Option<Flat> {
    var items := ItemsFrom(limits, payload, 0);
    if items.None? then None else Finish(limits, Run(limits, hash, items.value))
  }

  // ----- Length

  function RoundUp(x: Item): nat { SizeOf(x) + Padding(SizeOf(x)) }

  /** A payload that parses is as long as its headers, its rounded-up bodies and its terminator, and every
      header starts on a block boundary. */
  lemma {:induction false} PayloadLength(limits: Limits, payload: Bytes, offset: nat)
    requires offset <= |payload| && Aligned(offset)
    requires ItemsFrom(limits, payload, offset).Some?
    ensures var items := ItemsFrom(limits, payload, offset).value;
      |payload| - offset == BLOCK_BYTES * (|items| + 2) + Weigh(items, RoundUp)
    decreases |payload| - offset
  {
    hide HeaderAt, IsZero, RoundUp, BodyAt, BodyBytes, ItemOf, Aligned;
    if !IsZero(payload[offset..offset + BLOCK_BYTES]) {
      var h := HeaderAt(limits, payload, offset).value;
      var body := BodyAt(payload, offset + BLOCK_BYTES, h).value;
      BodyLength(payload, offset + BLOCK_BYTES, h);
      NextBlock(offset, h);
      PayloadLength(limits, payload, offset + BLOCK_BYTES + BodyBytes(h));
      var items, rest := ItemsFrom(limits, payload, offset).value, ItemsFrom(limits, payload, offset + BLOCK_BYTES + BodyBytes(h)).value;
      assert items[0] == ItemOf(h, body) && items[1..] == rest;
    }
  }

  lemma BodyLength(payload: Bytes, start: nat, h: Header)
    requires BodyAt(payload, start, h).Some?
    ensures RoundUp(ItemOf(h, BodyAt(payload, start, h).value)) == BodyBytes(h)
  {
    hide Padding, IsZero;
    PaddingOfNothing();
  }

  // ----- Running on

  ghost function Prepend(done: seq<Item>, rest: Option<seq<Item>>): Option<seq<Item>> {
    if rest.None? then None else Some(done + rest.value)
  }

  lemma RunNext(limits: Limits, hash: Hash, done: seq<Item>, x: Item)
    requires Run(limits, hash, done).Some?
    ensures Run(limits, hash, done + [x]) == Step(limits, hash, Run(limits, hash, done).value, x)
  {
    assert (done + [x])[..|done|] == done;
  }

  /** A run that is stuck stays stuck. */
  lemma {:induction false} RunStuck(limits: Limits, hash: Hash, done: seq<Item>, rest: seq<Item>)
    requires Run(limits, hash, done).None?
    ensures Run(limits, hash, done + rest).None?
  {
    hide Step;
    if rest == [] {
      assert done + rest == done;
    } else {
      var last := |rest| - 1;
      RunStuck(limits, hash, done, rest[..last]);
      assert (done + rest)[..|done| + last] == done + rest[..last];
    }
  }

  /** The counters never go down. */
  lemma {:induction false} CountersGrow(limits: Limits, hash: Hash, done: seq<Item>, rest: seq<Item>)
    requires Run(limits, hash, done).Some? && Run(limits, hash, done + rest).Some?
    ensures Run(limits, hash, done).value.metadata <= Run(limits, hash, done + rest).value.metadata
    ensures Run(limits, hash, done).value.work <= Run(limits, hash, done + rest).value.work
  {
    hide Step;
    if rest == [] {
      assert done + rest == done;
    } else {
      var last := |rest| - 1;
      assert (done + rest)[..|done| + last] == done + rest[..last];
      CountersGrow(limits, hash, done, rest[..last]);
      StepCounters(limits, hash, Run(limits, hash, done + rest[..last]).value, rest[last]);
    }
  }

  lemma StepCounters(limits: Limits, hash: Hash, s: Flat, x: Item)
    requires Step(limits, hash, s, x).Some?
    ensures s.metadata <= Step(limits, hash, s, x).value.metadata && s.work <= Step(limits, hash, s, x).value.work
  {
    hide WithParents, ParentsOk, Free, Collides, EncodingOf, ItemShape, WorkOf;
  }

  /** No room for one more block: whatever follows, the payload is refused. */
  lemma NoMoreBlocks(limits: Limits, hash: Hash, done: seq<Item>, rest: seq<Item>)
    requires Run(limits, hash, done).Some?
    requires var s := Run(limits, hash, done).value; s.metadata + BLOCK_BYTES > limits.metadataBytes || s.work + 1 > limits.workUnits
    ensures Finish(limits, Run(limits, hash, done + rest)).None?
  {
    if Run(limits, hash, done + rest).Some? {
      CountersGrow(limits, hash, done, rest);
    }
  }

  // ----- Writing an archive

  /** An entry with the spelling of its path and the fields that do not matter. */
  datatype Written = Written(header: Header, content: Bytes, prefix: Bytes, name: Bytes, ignored: Ignored)

  ghost predicate WrittenOk(limits: Limits, w: Written) {
    && Writable(limits, w.header, w.prefix, w.name, w.ignored)
    && |w.content| == (if w.header.kind.FileKind? then w.header.size else 0)
  }

  ghost function EncodeEntry(limits: Limits, w: Written): Bytes
    requires WrittenOk(limits, w)
  {
    EncodeHeader(limits, w.header, w.prefix, w.name, w.ignored) + (w.content + Zeros(Padding(|w.content|)))
  }

  ghost function EncodeArchive(limits: Limits, list: seq<Written>): Bytes
    requires forall i :: 0 <= i < |list| ==> WrittenOk(limits, list[i])
  {
    if list == [] then Zeros(2 * BLOCK_BYTES) else EncodeEntry(limits, list[0]) + EncodeArchive(limits, list[1..])
  }

  ghost function ItemsOf(list: seq<Written>): seq<Item> {
    seq(|list|, i requires 0 <= i < |list| => ItemOf(list[i].header, list[i].content))
  }

  lemma NotZero(limits: Limits, block: Block)
    requires ParseHeader(limits, block).Some?
    ensures !IsZero(block)
  {
    assert block[257..263][0] == MAGIC[0];
  }

  lemma PaddingOfNothing()
    ensures Padding(0) == 0
  {
  }

  /** Where the parts of an entry lie in a payload. */
  lemma EntryParts(payload: Bytes, offset: nat, block: Block, content: Bytes, padding: Bytes, rest: Bytes)
    requires offset <= |payload| && payload[offset..] == block + (content + padding) + rest
    ensures |payload| == offset + BLOCK_BYTES + |content| + |padding| + |rest|
    ensures payload[offset..offset + BLOCK_BYTES] == block
    ensures payload[offset + BLOCK_BYTES..offset + BLOCK_BYTES + |content|] == content
    ensures payload[offset + BLOCK_BYTES + |content|..offset + BLOCK_BYTES + |content| + |padding|] == padding
    ensures payload[offset + BLOCK_BYTES + |content| + |padding|..] == rest
  {
    assert payload[offset..] == block + (content + (padding + rest));
    Peel(payload, offset, block, content + (padding + rest));
    Peel(payload, offset + BLOCK_BYTES, content, padding + rest);
    Peel(payload, offset + BLOCK_BYTES + |content|, padding, rest);
  }

  lemma TwoZeroBlocks(first: Bytes, second: Bytes)
    requires first + second == Zeros(2 * BLOCK_BYTES)
    ensures IsZero(first) && IsZero(second)
  {
    assert forall i :: 0 <= i < |first| ==> first[i] == (first + second)[i];
    assert forall i :: 0 <= i < |second| ==> second[i] == (first + second)[|first| + i];
  }

  lemma BodyReadBack(limits: Limits, payload: Bytes, start: nat, w: Written)
    requires WrittenOk(limits, w) && start + |w.content| + Padding(|w.content|) <= |payload|
    requires payload[start..start + |w.content|] == w.content
    requires payload[start + |w.content|..start + |w.content| + Padding(|w.content|)] == Zeros(Padding(|w.content|))
    ensures BodyAt(payload, start, w.header) == Some(w.content) && BodyBytes(w.header) == |w.content| + Padding(|w.content|)
  {
    hide Writable, Padding;
    PaddingOfNothing();
  }

  /** Everything written is read back, from any block boundary. */
  lemma {:induction false} ItemsReadBack(limits: Limits, payload: Bytes, offset: nat, list: seq<Written>)
    requires offset <= |payload| && Aligned(offset)
    requires forall i :: 0 <= i < |list| ==> WrittenOk(limits, list[i])
    requires payload[offset..] == EncodeArchive(limits, list)
    ensures ItemsFrom(limits, payload, offset) == Some(ItemsOf(list))
    decreases |list|
  {
    hide ParseHeader, EncodeHeader, Writable, Padding, ItemOf, IsZero, BodyAt, BodyBytes, Aligned, Zeros;
    if list == [] {
      assert payload[offset..offset + BLOCK_BYTES] == payload[offset..][..BLOCK_BYTES];
      assert payload[offset + BLOCK_BYTES..] == payload[offset..][BLOCK_BYTES..];
      TwoZeroBlocks(payload[offset..offset + BLOCK_BYTES], payload[offset + BLOCK_BYTES..]);
    } else {
      var w, rest := list[0], EncodeArchive(limits, list[1..]);
      assert WrittenOk(limits, list[0]);
      var block := EncodeHeader(limits, w.header, w.prefix, w.name, w.ignored);
      EntryParts(payload, offset, block, w.content, Zeros(Padding(|w.content|)), rest);
      HeaderRoundTrip(limits, w.header, w.prefix, w.name, w.ignored);
      NotZero(limits, block);
      BodyReadBack(limits, payload, offset + BLOCK_BYTES, w);
      NextBlock(offset, w.header);
      ItemsReadBack(limits, payload, offset + BLOCK_BYTES + BodyBytes(w.header), list[1..]);
      assert ItemsOf(list) == [ItemOf(w.header, w.content)] + ItemsOf(list[1..]);
    }
  }

  /** An archive that lists a tree decodes to that tree, whatever the order of its entries, whenever the
      collection of entries is acceptable and the terminator can be charged. */
  lemma ArchiveRoundTrip(limits: Limits, hash: Hash, list: seq<Written>, tree: Nodes)
    requires forall i :: 0 <= i < |list| ==> WrittenOk(limits, list[i])
    requires IsTree(tree) && Lists(hash, ItemsOf(list), tree)
    requires Acceptable(limits, hash, ItemsOf(list)) && Finish(limits, Some(Built(hash, ItemsOf(list)))).Some?
    ensures var decoded := Parse(limits, hash, EncodeArchive(limits, list));
      decoded.Some? && decoded.value.nodes == tree && decoded.value.stored == Encodings(ItemsOf(list))
  {
    hide ItemsFrom, EncodeArchive, Run, Acceptable, NodesOf, Lists, IsTree;
    var payload := EncodeArchive(limits, list);
    assert payload[0..] == payload;
    ItemsReadBack(limits, payload, 0, list);
    RunIsAcceptance(limits, hash, ItemsOf(list));
    ListingBuildsTree(hash, ItemsOf(list), tree);
  }
}
