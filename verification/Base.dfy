/** Types shared by every part of the model: optional and fallible results, bytes, content
    addresses, and sums over finite sets. */
module Base {

  datatype Option<+T> = None | Some(value: T)

  datatype Result<+T, +E> = Success(value: T) | Failure(error: E)

  type byte = b: int | 0 <= b < 256

  type Bytes = seq<byte>

  /** A content address.  The model never looks inside it except where the codec writes it out. */
  datatype Digest = Digest(text: Bytes)

  // ----- Sums over finite sets

  /** The total weight of a finite set of names. */
  ghost function SumOver<K>(s: set<K>, weight: K -> nat): nat
  {
    if s == {} then 0 else
      var k :| k in s;
      weight(k) + SumOver(s - {k}, weight)
  }

  /** The total does not depend on the order in which the members are taken. */
  lemma {:induction false} SumOverRemove<K>(s: set<K>, weight: K -> nat, k: K)
    requires k in s
    ensures SumOver(s, weight) == weight(k) + SumOver(s - {k}, weight)
  {
    var c :| c in s && SumOver(s, weight) == weight(c) + SumOver(s - {c}, weight);
    if c != k {
      SumOverRemove(s - {c}, weight, k);
      SumOverRemove(s - {k}, weight, c);
      assert s - {c} - {k} == s - {k} - {c};
    }
  }

  lemma {:induction false} SumOverMonotone<K>(small: set<K>, large: set<K>, weight: K -> nat)
    requires small <= large
    ensures SumOver(small, weight) <= SumOver(large, weight)
  {
    if small != {} {
      var k :| k in small;
      SumOverRemove(small, weight, k);
      SumOverRemove(large, weight, k);
      SumOverMonotone(small - {k}, large - {k}, weight);
    }
  }

  lemma {:induction false} SumOverUnion<K>(a: set<K>, b: set<K>, weight: K -> nat)
    requires a !! b
    ensures SumOver(a + b, weight) == SumOver(a, weight) + SumOver(b, weight)
  {
    if a == {} {
      assert a + b == b;
    } else {
      var k :| k in a;
      SumOverRemove(a, weight, k);
      SumOverRemove(a + b, weight, k);
      assert a + b - {k} == (a - {k}) + b;
      SumOverUnion(a - {k}, b, weight);
    }
  }

  lemma {:induction false} SumOverAgrees<K>(s: set<K>, f: K -> nat, g: K -> nat)
    requires forall k :: k in s ==> f(k) == g(k)
    ensures SumOver(s, f) == SumOver(s, g)
  {
    if s != {} {
      var k :| k in s;
      SumOverRemove(s, f, k);
      SumOverRemove(s, g, k);
      SumOverAgrees(s - {k}, f, g);
    }
  }

  lemma SmallerSubset<K>(a: set<K>, b: set<K>)
    requires a <= b
    ensures |a| <= |b| && (|a| == |b| ==> a == b)
  {
    assert b == a + (b - a);
    if |a| == |b| {
      assert b - a == {};
    }
  }

  ghost function SetOf<T>(s: seq<T>): set<T> { set x | x in s }

  // ----- Sums over sequences

  ghost function Weigh<T>(s: seq<T>, weight: T -> nat): nat {
    if s == [] then 0 else weight(s[0]) + Weigh(s[1..], weight)
  }

  lemma {:induction false} WeighAppend<T>(a: seq<T>, b: seq<T>, weight: T -> nat)
    ensures Weigh(a + b, weight) == Weigh(a, weight) + Weigh(b, weight)
  {
    if a == [] {
      assert a + b == b;
    } else {
      assert (a + b)[1..] == a[1..] + b;
      WeighAppend(a[1..], b, weight);
    }
  }

  /** Takes one occurrence of `x` out of a sequence. */
  lemma TakeOut<T>(s: seq<T>, x: T) returns (rest: seq<T>)
    requires x in s
    ensures multiset(s) == multiset(rest) + multiset{x} && |rest| == |s| - 1
    ensures forall weight :: Weigh(s, weight) == Weigh(rest, weight) + weight(x)
  {
    var k :| 0 <= k < |s| && s[k] == x;
    rest := s[..k] + s[k + 1..];
    assert s == s[..k] + ([x] + s[k + 1..]);
    forall weight ensures Weigh(s, weight) == Weigh(rest, weight) + weight(x) {
      WeighAppend(s[..k], [x] + s[k + 1..], weight);
      WeighAppend(s[..k], s[k + 1..], weight);
      assert ([x] + s[k + 1..])[1..] == s[k + 1..];
    }
  }

  /** A sequence that holds no more than another weighs no more. */
  lemma {:induction false} WeighMonotone<T>(a: seq<T>, b: seq<T>, weight: T -> nat)
    requires multiset(a) <= multiset(b)
    ensures Weigh(a, weight) <= Weigh(b, weight)
  {
    if a != [] {
      assert a[0] in multiset(a);
      var rest := TakeOut(b, a[0]);
      assert a == [a[0]] + a[1..];
      assert multiset(a) == multiset(a[1..]) + multiset{a[0]};
      forall x ensures multiset(a[1..])[x] <= multiset(rest)[x] {
        assert multiset(a)[x] <= multiset(b)[x];
      }
      WeighMonotone(a[1..], rest, weight);
    }
  }
}
