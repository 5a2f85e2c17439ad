/**
 Byte strings and the order in which bbolt keeps its keys.

 A Go string or []byte is a `Bytes`: every char stands for one byte. Nothing below depends on the
 size of the alphabet, so the statements hold for bytes in particular.
 */
module Lex {

  type Bytes = string

  /** bytes.Compare(a, b) < 0, and Go's a < b on strings. */
  predicate Less(a: Bytes, b: Bytes)
  {
    if |b| == 0 then false
    else if |a| == 0 then true
    else if a[0] != b[0] then a[0] < b[0]
    else Less(a[1..], b[1..])
  }

  /** bytes.HasPrefix(s, p). */
  predicate HasPrefix(s: Bytes, p: Bytes)
  {
    p <= s
  }

  /** Strictly ascending, hence free of duplicates: the order of the keys of a bucket. */
  predicate Ascending(keys: seq<Bytes>)
  {
    forall i, j :: 0 <= i < j < |keys| ==> Less(keys[i], keys[j])
  }

  /** The two strings agree up to `k`, and `a` either ends there or has the smaller byte there. */
  predicate SmallerAt(a: Bytes, b: Bytes, k: nat)
  {
    && k <= |a| && k < |b|
    && a[..k] == b[..k]
    && (k == |a| || a[k] < b[k])
  }

  lemma {:induction false} LessAt(a: Bytes, b: Bytes, k: nat)
    requires SmallerAt(a, b, k)
    ensures Less(a, b)
  {
    if k > 0 {
      assert a[0] == a[..k][0] == b[..k][0] == b[0];
      assert a[1..][..k - 1] == a[..k][1..] == b[..k][1..] == b[1..][..k - 1];
      LessAt(a[1..], b[1..], k - 1);
    }
  }

  lemma {:induction false} FirstDifference(a: Bytes, b: Bytes) returns (k: nat)
    requires Less(a, b)
    ensures SmallerAt(a, b, k)
  {
    if |a| == 0 || a[0] != b[0] {
      k := 0;
    } else {
      var j := FirstDifference(a[1..], b[1..]);
      k := j + 1;
      assert a[..k] == [a[0]] + a[1..][..j] == [b[0]] + b[1..][..j] == b[..k];
    }
  }

  lemma {:induction false} LessIrreflexive(a: Bytes)
    ensures !Less(a, a)
  {
    if Less(a, a) {
      var k := FirstDifference(a, a);
    }
  }

  lemma {:induction false} LessTransitive(a: Bytes, b: Bytes, c: Bytes)
    requires Less(a, b) && Less(b, c)
    ensures Less(a, c)
  {
    var i := FirstDifference(a, b);
    var j := FirstDifference(b, c);
    var k := if i < j then i else j;
    assert a[..k] == a[..i][..k] == b[..i][..k] == b[..k];
    assert b[..k] == b[..j][..k] == c[..j][..k] == c[..k];
    if j < i {
      assert a[j] == a[..i][j] == b[..i][j] == b[j];
    } else if i < j {
      assert b[i] == b[..j][i] == c[..j][i] == c[i];
    }
    LessAt(a, c, k);
  }

  lemma {:induction false} LessTotal(a: Bytes, b: Bytes)
    ensures Less(a, b) || a == b || Less(b, a)
  {
    if |a| > 0 && |b| > 0 && a[0] == b[0] {
      LessTotal(a[1..], b[1..]);
      assert a == [a[0]] + a[1..] && b == [b[0]] + b[1..];
    }
  }

  lemma LessAsymmetric(a: Bytes, b: Bytes)
    requires Less(a, b)
    ensures !Less(b, a) && a != b
  {
    LessIrreflexive(a);
    if Less(b, a) {
      LessTransitive(a, b, a);
    }
  }

  /** Strings of fixed width compare field by field. */
  lemma {:induction false} LessConcat(a: Bytes, b: Bytes, c: Bytes, d: Bytes)
    requires |a| == |c|
    ensures Less(a + b, c + d) <==> Less(a, c) || (a == c && Less(b, d))
  {
    if |a| == 0 {
      assert a + b == b && c + d == d;
    } else {
      assert (a + b)[1..] == a[1..] + b && (c + d)[1..] == c[1..] + d;
      LessConcat(a[1..], b, c[1..], d);
      assert a == [a[0]] + a[1..] && c == [c[0]] + c[1..];
    }
  }

  /** A prefix is a lower bound of everything that starts with it. */
  lemma PrefixIsLowerBound(p: Bytes, s: Bytes)
    requires HasPrefix(s, p)
    ensures !Less(s, p)
  {
    if Less(s, p) {
      var k := FirstDifference(s, p);
    }
  }

  /**
   The strings with a given prefix are contiguous: once a string at or above the prefix no longer
   starts with it, nothing above that string does either.
   */
  lemma PrefixRunEnds(p: Bytes, s: Bytes, t: Bytes)
    requires !Less(s, p) && !HasPrefix(s, p) && Less(s, t)
    ensures !HasPrefix(t, p)
  {
    LessTotal(s, p);
    var k := FirstDifference(p, s);
    if HasPrefix(t, p) {
      assert k < |p|;
      assert t[..k] == p[..k] == s[..k] && t[k] == p[k];
      LessAt(t, s, k);
      LessAsymmetric(t, s);
    }
  }

  predicate NoDuplicates<T(==)>(s: seq<T>)
  {
    forall i, j :: 0 <= i < j < |s| ==> s[i] != s[j]
  }

  lemma AscendingHasNoDuplicates(keys: seq<Bytes>)
    requires Ascending(keys)
    ensures NoDuplicates(keys)
  {
    forall i, j | 0 <= i < j < |keys| ensures keys[i] != keys[j] {
      LessIrreflexive(keys[i]);
    }
  }

  lemma {:induction false} NoDuplicatesCount<T>(s: seq<T>, x: T)
    requires NoDuplicates(s)
    ensures multiset(s)[x] == if x in s then 1 else 0
  {
    if s != [] {
      var last := |s| - 1;
      assert s == s[..last] + [s[last]];
      NoDuplicatesCount(s[..last], x);
    }
  }

  lemma {:induction false} NoDuplicatesSize<T>(s: seq<T>, bound: set<T>)
    requires NoDuplicates(s)
    requires forall x :: x in s ==> x in bound
    ensures |s| <= |bound|
  {
    if s != [] {
      var last := |s| - 1;
      NoDuplicatesSize(s[..last], bound - {s[last]});
    }
  }

  /** Duplicate-free sequences with the same elements are permutations of each other. */
  lemma SameElementsSameMultiset<T>(s: seq<T>, t: seq<T>)
    requires NoDuplicates(s) && NoDuplicates(t)
    requires forall x :: x in s <==> x in t
    ensures multiset(s) == multiset(t) && |s| == |t|
  {
    forall x ensures multiset(s)[x] == multiset(t)[x] {
      NoDuplicatesCount(s, x);
      NoDuplicatesCount(t, x);
    }
    assert |s| == |multiset(s)| && |t| == |multiset(t)|;
  }

  /** There is only one way to put a set of keys in order. */
  lemma {:induction false} AscendingIsUnique(s: seq<Bytes>, t: seq<Bytes>)
    requires Ascending(s) && Ascending(t)
    requires forall x :: x in s <==> x in t
    ensures s == t
  {
    AscendingHasNoDuplicates(s);
    AscendingHasNoDuplicates(t);
    SameElementsSameMultiset(s, t);
    if s != [] {
      assert s[0] in t && t[0] in s;
      if s[0] != t[0] {
        LessAsymmetric(s[0], t[0]);
      }
      forall x ensures x in s[1..] <==> x in t[1..] {
        assert x in s <==> x == s[0] || x in s[1..];
        assert x in t <==> x == t[0] || x in t[1..];
      }
      AscendingIsUnique(s[1..], t[1..]);
      assert s == [s[0]] + s[1..] && t == [t[0]] + t[1..];
    }
  }
}
