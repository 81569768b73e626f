/** Fixed-width big-endian numbers and length-prefixed text, and a reader that consumes them.  Each
    read either takes exactly one encoding off the front or shows that none is there. */
module Wire {
  import opened Base

  function Power256(width: nat): (p: nat)
    ensures p >= 1
  {
    if width == 0 then 1 else 256 * Power256(width - 1)
  }

  function BigEndian(n: nat, width: nat): (b: Bytes)
    requires n < Power256(width)
    ensures |b| == width
  {
    if width == 0 then [] else BigEndian(n / 256, width - 1) + [n % 256]
  }

  function FromBigEndian(b: Bytes): nat {
    if b == [] then 0 else FromBigEndian(b[..|b| - 1]) * 256 + b[|b| - 1]
  }

  lemma {:induction false} BigEndianValue(n: nat, width: nat)
    requires n < Power256(width)
    ensures FromBigEndian(BigEndian(n, width)) == n
  {
    if width > 0 {
      BigEndianValue(n / 256, width - 1);
      assert BigEndian(n, width)[..width - 1] == BigEndian(n / 256, width - 1);
    }
  }

  lemma {:induction false} ValueBigEndian(b: Bytes)
    ensures FromBigEndian(b) < Power256(|b|)
    ensures BigEndian(FromBigEndian(b), |b|) == b
  {
    if b != [] {
      ValueBigEndian(b[..|b| - 1]);
      assert b == b[..|b| - 1] + [b[|b| - 1]];
    }
  }

  lemma Widths()
    ensures Power256(1) == 0x100 && Power256(2) == 0x1_0000 && Power256(4) == 0x1_0000_0000 && Power256(8) == 0x1_0000_0000_0000_0000
  {
    assert Power256(3) == 0x100_0000 && Power256(4) == 0x1_0000_0000 && Power256(5) == 0x100_0000_0000;
    assert Power256(6) == 0x1_0000_0000_0000 && Power256(7) == 0x100_0000_0000_0000;
  }

  const U64_END: nat := 0x1_0000_0000_0000_0000

  /** A length and that many bytes. */
  function EncodeText(s: Bytes): Bytes
    requires |s| < U64_END
  {
    Widths();
    BigEndian(|s|, 8) + s
  }

  /** Equal streams that start with equally long parts agree on the parts and on what follows. */
  lemma SplitEqual(a: Bytes, x: Bytes, b: Bytes, y: Bytes)
    requires a + x == b + y && |a| == |b|
    ensures a == b && x == y
  {
    assert (a + x)[..|a|] == a && (b + y)[..|b|] == b;
    assert (a + x)[|a|..] == x && (b + y)[|b|..] == y;
  }

  lemma FixedPrefix(m: nat, n: nat, width: nat, x: Bytes, y: Bytes)
    requires m < Power256(width) && n < Power256(width)
    requires BigEndian(m, width) + x == BigEndian(n, width) + y
    ensures m == n && x == y
  {
    SplitEqual(BigEndian(m, width), x, BigEndian(n, width), y);
    BigEndianValue(m, width);
    BigEndianValue(n, width);
  }

  /** No encoded text is a proper beginning of another. */
  lemma TextPrefix(a: Bytes, x: Bytes, b: Bytes, y: Bytes)
    requires |a| < U64_END && |b| < U64_END
    requires EncodeText(a) + x == EncodeText(b) + y
    ensures a == b && x == y
  {
    hide BigEndian, Power256;
    Widths();
    assert EncodeText(a) + x == BigEndian(|a|, 8) + (a + x);
    assert EncodeText(b) + y == BigEndian(|b|, 8) + (b + y);
    FixedPrefix(|a|, |b|, 8, a + x, b + y);
    SplitEqual(a, x, b, y);
  }

  class Reader {
    var remaining: Bytes

    constructor (bytes: Bytes)
      ensures remaining == bytes
    {
      remaining := bytes;
    }

    method Take(n: nat) returns (r: Option<Bytes>)
      modifies this
      ensures r.Some? <==> n <= |old(remaining)|
      ensures r.Some? ==> |r.value| == n && old(remaining) == r.value + remaining
      ensures r.None? ==> remaining == old(remaining)
    {
      if |remaining| < n {
        return None;
      }
      r := Some(remaining[..n]);
      remaining := remaining[n..];
    }

    /** A number of the given width: absent only when the stream is too short. */
    method Fixed(width: nat) returns (r: Option<nat>)
      modifies this
      ensures r.Some? <==> width <= |old(remaining)|
      ensures r.Some? ==> r.value < Power256(width) && old(remaining) == BigEndian(r.value, width) + remaining
    {
      var bytes := Take(width);
      if bytes.None? {
        return None;
      }
      ValueBigEndian(bytes.value);
      r := Some(FromBigEndian(bytes.value));
    }

    /** Text of at most `maximum` bytes, or proof that the stream does not start with any. */
    method Text(maximum: nat) returns (r: Option<Bytes>)
      requires maximum < U64_END
      modifies this
      ensures r.Some? ==> |r.value| <= maximum && old(remaining) == EncodeText(r.value) + remaining
      ensures r.None? ==> forall s, rest :: |s| <= maximum ==> old(remaining) != EncodeText(s) + rest
    {
      hide BigEndian, Power256, FromBigEndian;
      Widths();
      ghost var start := remaining;
      var length := Fixed(8);
      if length.None? {
        return None;
      }
      ghost var tail := remaining;
      forall s, rest | |s| <= maximum && start == EncodeText(s) + rest
        ensures |s| == length.value && tail == s + rest
      {
        assert start == BigEndian(|s|, 8) + (s + rest);
        FixedPrefix(length.value, |s|, 8, tail, s + rest);
      }
      if length.value > maximum {
        return None;
      }
      r := Take(length.value);
      if r.Some? {
        assert start == BigEndian(length.value, 8) + (r.value + remaining);
        assert start == EncodeText(r.value) + remaining;
      }
    }

    /** An expected constant. */
    method Expect(expected: Bytes) returns (ok: bool)
      modifies this
      ensures ok ==> old(remaining) == expected + remaining
      ensures !ok ==> forall rest :: old(remaining) != expected + rest
    {
      var found := Take(|expected|);
      ok := found == Some(expected);
      if !ok {
        forall rest | old(remaining) == expected + rest ensures false {
          SplitEqual(found.value, remaining, expected, rest);
        }
      }
    }
  }
}
