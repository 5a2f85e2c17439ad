/**
 sort.Slice: it leaves a permutation in which no later element is less than an earlier one, and
 promises nothing about elements the comparator does not tell apart.
 */
module Sorting {

  /** What sort.Slice asks of its comparator. */
  ghost predicate StrictWeakOrder<T(!new)>(less: (T, T) -> bool)
  {
    && (forall x, y :: less(x, y) ==> !less(y, x))
    && (forall x, y, z :: less(x, z) ==> less(x, y) || less(y, z))
  }

  ghost predicate Sorted<T>(s: seq<T>, less: (T, T) -> bool)
  {
    forall i, j :: 0 <= i < j < |s| ==> !less(s[j], s[i])
  }

  method Slice<T(!new)>(s: seq<T>, less: (T, T) -> bool) returns (r: seq<T>)
    requires StrictWeakOrder(less)
    ensures multiset(r) == multiset(s) && |r| == |s|
    ensures Sorted(r, less)
  {
    r := [];
    for n := 0 to |s|
      invariant multiset(r) == multiset(s[..n]) && |r| == n
      invariant Sorted(r, less)
    {
      var at := n;
      while at > 0 && less(s[n], r[at - 1])
        invariant at <= n
        invariant forall i :: at <= i < n ==> less(s[n], r[i])
      {
        at := at - 1;
      }
      assert s[..n + 1] == s[..n] + [s[n]];
      r := Insert(r, at, s[n], less);
    }
    assert s[..|s|] == s;
  }

  method Insert<T(!new)>(r: seq<T>, at: nat, x: T, less: (T, T) -> bool) returns (r': seq<T>)
    requires StrictWeakOrder(less) && Sorted(r, less) && at <= |r|
    requires forall i :: at <= i < |r| ==> less(x, r[i])
    requires at > 0 ==> !less(x, r[at - 1])
    ensures Sorted(r', less) && multiset(r') == multiset(r) + multiset{x} && |r'| == |r| + 1
  {
    InsertSorted(r, at, x, less);
    assert r == r[..at] + r[at..];
    r' := r[..at] + [x] + r[at..];
  }

  lemma InsertSorted<T(!new)>(r: seq<T>, at: nat, x: T, less: (T, T) -> bool)
    requires StrictWeakOrder(less) && Sorted(r, less) && at <= |r|
    requires forall i :: at <= i < |r| ==> less(x, r[i])
    requires at > 0 ==> !less(x, r[at - 1])
    ensures Sorted(r[..at] + [x] + r[at..], less)
  {
    forall i | 0 <= i < at ensures !less(x, r[i]) {
      var y, last := r[i], r[at - 1];
      assert less(x, y) ==> less(x, last) || less(last, y);
    }
  }

  /** The comparator orders any two different elements. */
  ghost predicate Separates<T>(s: seq<T>, less: (T, T) -> bool)
  {
    forall i, j :: 0 <= i < |s| && 0 <= j < |s| && s[i] != s[j] ==> less(s[i], s[j]) || less(s[j], s[i])
  }

  lemma HeadsAgree<T>(s: seq<T>, t: seq<T>, less: (T, T) -> bool)
    requires |s| > 0 && |t| > 0 && s[0] in t && t[0] in s
    requires Sorted(s, less) && Sorted(t, less) && Separates(s, less)
    ensures s[0] == t[0]
  {
    var i :| 0 <= i < |t| && t[i] == s[0];
    var j :| 0 <= j < |s| && s[j] == t[0];
  }

  lemma TailsPermute<T>(s: seq<T>, t: seq<T>)
    requires |s| > 0 && |t| > 0 && s[0] == t[0] && multiset(s) == multiset(t)
    ensures multiset(s[1..]) == multiset(t[1..])
  {
    assert s == [s[0]] + s[1..] && t == [t[0]] + t[1..];
    assert multiset(s[1..]) == multiset(s) - multiset{s[0]};
    assert multiset(t[1..]) == multiset(t) - multiset{t[0]};
  }

  lemma SortedTail<T>(s: seq<T>, less: (T, T) -> bool)
    requires |s| > 0 && Sorted(s, less)
    ensures Sorted(s[1..], less) && (Separates(s, less) ==> Separates(s[1..], less))
  {
    assert forall i :: 0 <= i < |s[1..]| ==> s[1..][i] == s[i + 1];
  }

  /** Where the comparator tells all elements apart, every correct sort gives the same list. */
  lemma {:induction false} SortedIsUnique<T(!new)>(s: seq<T>, t: seq<T>, less: (T, T) -> bool)
    requires multiset(s) == multiset(t) && Sorted(s, less) && Sorted(t, less) && Separates(s, less)
    ensures s == t
    decreases |s|
  {
    assert |s| == |multiset(s)| == |multiset(t)| == |t|;
    if |s| > 0 {
      assert s[0] in multiset(t) && t[0] in multiset(s);
      HeadsAgree(s, t, less);
      TailsPermute(s, t);
      SortedTail(s, less);
      SortedTail(t, less);
      SortedIsUnique(s[1..], t[1..], less);
      assert s == [s[0]] + s[1..] && t == [t[0]] + t[1..];
    }
  }
}
