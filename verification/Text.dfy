/** Names and slash-separated paths.  The source keeps paths as UTF-8 strings; the model keeps them
    as sequences of segments, and `SplitJoin` / `JoinSplit` show that nothing is lost. */
module Text {
  import opened Base

  type Segment = Bytes

  type Path = seq<Segment>

  const SLASH: byte := 47
  const BACKSLASH: byte := 92
  const DOT: byte := 46

  /** `str::split('/')`. */
  function Split(s: Bytes): (p: Path)
    ensures p != []
  {
    if s == [] then [[]]
    else
      var rest := Split(s[1..]);
      if s[0] == SLASH then [[]] + rest else [[s[0]] + rest[0]] + rest[1..]
  }

  function Join(p: Path): Bytes {
    if p == [] then []
    else if |p| == 1 then p[0]
    else p[0] + [SLASH] + Join(p[1..])
  }

  ghost predicate NoSlash(p: Path) {
    forall i :: 0 <= i < |p| ==> SLASH !in p[i]
  }

  lemma {:induction false} JoinSplit(s: Bytes)
    ensures Join(Split(s)) == s
    ensures NoSlash(Split(s))
  {
    if s != [] {
      JoinSplit(s[1..]);
      var rest := Split(s[1..]);
      if s[0] == SLASH {
        assert Split(s)[1..] == rest;
      } else if |rest| > 1 {
        assert Split(s)[1..] == rest[1..];
      }
    }
  }

  lemma {:induction false} SplitNoSlash(s: Segment)
    requires SLASH !in s
    ensures Split(s) == [s]
  {
    if s != [] {
      SplitNoSlash(s[1..]);
      assert s == [s[0]] + s[1..];
    }
  }

  lemma {:induction false} SplitAtSlash(head: Segment, tail: Bytes)
    requires SLASH !in head
    ensures Split(head + [SLASH] + tail) == [head] + Split(tail)
  {
    var s := head + [SLASH] + tail;
    if head == [] {
      assert s[1..] == tail;
    } else {
      assert s[1..] == head[1..] + [SLASH] + tail;
      SplitAtSlash(head[1..], tail);
      assert head == [head[0]] + head[1..];
    }
  }

  /** Every nonempty path of slash-free segments is recovered from its joined form. */
  lemma {:induction false} SplitJoin(p: Path)
    requires p != [] && NoSlash(p)
    ensures Split(Join(p)) == p
  {
    if |p| == 1 {
      SplitNoSlash(p[0]);
    } else {
      SplitJoin(p[1..]);
      SplitAtSlash(p[0], Join(p[1..]));
    }
  }

  ghost predicate Proper(p: Path) {
    forall i :: 0 <= i < |p| ==> p[i] != []
  }

  /** The length of a joined path grows by the segment and, except at the root, by one separator. */
  lemma {:induction false} JoinLength(p: Path, name: Segment)
    requires Proper(p)
    ensures |Join(p + [name])| == |name| + (if p == [] then 0 else |Join(p)| + 1)
    ensures p != [] <==> Join(p) != []
  {
    if |p| >= 1 {
      JoinLength(p[1..], name);
      assert (p + [name])[1..] == p[1..] + [name];
    }
  }

  ghost predicate IsPrefix(p: Path, q: Path) {
    |p| <= |q| && q[..|p|] == p
  }

  // ----- Text validity

  /** Length of the UTF-8 scalar at the front of `s`, or 0 when there is none. */
  function ScalarLength(s: Bytes): (n: nat)
    ensures n <= |s|
  {
    if s == [] then 0
    else if s[0] < 0x80 then 1
    else if |s| < 2 then 0
    else if 0xC2 <= s[0] <= 0xDF && Continuation(s[1]) then 2
    else if |s| < 3 then 0
    else if 0xE0 <= s[0] <= 0xEF && Continuation(s[1]) && Continuation(s[2])
            && (s[0] == 0xE0 ==> s[1] >= 0xA0) && (s[0] == 0xED ==> s[1] < 0xA0) then 3
    else if |s| < 4 then 0
    else if 0xF0 <= s[0] <= 0xF4 && Continuation(s[1]) && Continuation(s[2]) && Continuation(s[3])
            && (s[0] == 0xF0 ==> s[1] >= 0x90) && (s[0] == 0xF4 ==> s[1] < 0x90) then 4
    else 0
  }

  predicate Continuation(b: byte) { 0x80 <= b < 0xC0 }

  /** `char::is_control` of the scalar at the front: C0, DEL and C1. */
  predicate StartsWithControl(s: Bytes)
    requires s != []
  {
    s[0] < 0x20 || s[0] == 0x7F || (s[0] == 0xC2 && |s| >= 2 && s[1] < 0xA0)
  }

  /** Well-formed UTF-8 without control characters. */
  predicate CleanText(s: Bytes)
    decreases |s|
  {
    s == [] || (ScalarLength(s) > 0 && !StartsWithControl(s) && CleanText(s[ScalarLength(s)..]))
  }

  /** The rule every canonical path segment must meet. */
  predicate ValidSegment(s: Segment) {
    s != [] && |s| <= 255 && s != [DOT] && s != [DOT, DOT] && SLASH !in s && BACKSLASH !in s && CleanText(s)
  }

  /** Byte-wise lexicographic order, the order of Rust strings. */
  predicate Before(a: Bytes, b: Bytes) {
    b != [] && (a == [] || a[0] < b[0] || (a[0] == b[0] && Before(a[1..], b[1..])))
  }

  lemma {:induction false} BeforeIrreflexive(a: Bytes)
    ensures !Before(a, a)
  {
    if a != [] {
      BeforeIrreflexive(a[1..]);
    }
  }

  lemma {:induction false} BeforeTransitive(a: Bytes, b: Bytes, c: Bytes)
    requires Before(a, b) && Before(b, c)
    ensures Before(a, c)
  {
    if a != [] && a[0] == b[0] == c[0] {
      BeforeTransitive(a[1..], b[1..], c[1..]);
    }
  }

  ghost predicate StrictlySorted(names: seq<Bytes>) {
    forall i :: 0 <= i < |names| - 1 ==> Before(names[i], names[i + 1])
  }

  lemma {:induction false} SortedFar(names: seq<Bytes>, i: nat, j: nat)
    requires StrictlySorted(names) && i < j < |names|
    ensures Before(names[i], names[j])
    decreases j
  {
    if i < j - 1 {
      SortedFar(names, i, j - 1);
      assert Before(names[j - 1], names[j - 1 + 1]);
      BeforeTransitive(names[i], names[j - 1], names[j]);
    } else {
      assert Before(names[i], names[i + 1]);
    }
  }

  /** Strictly sorted names are pairwise different. */
  lemma SortedDistinct(names: seq<Bytes>)
    requires StrictlySorted(names)
    ensures forall i, j :: 0 <= i < j < |names| ==> names[i] != names[j]
  {
    forall i, j | 0 <= i < j < |names| ensures names[i] != names[j] {
      SortedFar(names, i, j);
      BeforeIrreflexive(names[i]);
    }
  }
}
