/**
 A bbolt bucket as the store sees it: a map whose keys a cursor visits in byte order.
 The transactions around it are atomic, so a store method reads and writes one bucket value.
 */
module Bolt {
  import opened Lex
  import opened Wrappers

  function KeySet(keys: seq<Bytes>): set<Bytes>
  {
    set k | k in keys
  }

  datatype Bucket<V> = Bucket(keys: seq<Bytes>, vals: map<Bytes, V>)
  {
    ghost predicate Valid()
    {
      Ascending(keys) && KeySet(keys) == vals.Keys
    }

    function Get(k: Bytes): Option<V>
    {
      if k in vals then Some(vals[k]) else None
    }

    method Put(k: Bytes, v: V) returns (b: Bucket<V>)
      requires Valid()
      ensures b.Valid() && b.vals == vals[k := v]
    {
      if k in vals {
        b := Bucket(keys, vals[k := v]);
      } else {
        var i := Seek(keys, k);
        InsertKeepsOrder(keys, k);
        b := Bucket(keys[..i] + [k] + keys[i..], vals[k := v]);
      }
    }

    method Delete(k: Bytes) returns (b: Bucket<V>)
      requires Valid()
      ensures b.Valid() && b.vals == vals - {k}
    {
      if k in vals {
        var i := Seek(keys, k);
        RemoveKeepsOrder(keys, k);
        b := Bucket(keys[..i] + keys[i + 1..], vals - {k});
      } else {
        b := this;
      }
    }
  }

  function Empty<V>(): (b: Bucket<V>)
    ensures b.Valid() && b.vals == map[]
  {
    Bucket([], map[])
  }

  /** Cursor.Seek: the position of the first key at or above `p`. */
  function Seek(keys: seq<Bytes>, p: Bytes): (pos: nat)
    ensures pos <= |keys|
    ensures forall i :: 0 <= i < pos ==> Less(keys[i], p)
    ensures pos < |keys| ==> !Less(keys[pos], p)
  {
    if |keys| == 0 || !Less(keys[0], p) then 0 else 1 + Seek(keys[1..], p)
  }

  lemma InsertKeepsOrder(keys: seq<Bytes>, k: Bytes)
    requires Ascending(keys) && k !in keys
    ensures Ascending(keys[..Seek(keys, k)] + [k] + keys[Seek(keys, k)..])
  {
    var pos := Seek(keys, k);
    forall i | pos <= i < |keys| ensures Less(k, keys[i]) {
      LessTotal(k, keys[pos]);
      if pos < i {
        LessTransitive(k, keys[pos], keys[i]);
      }
    }
  }

  lemma RemoveKeepsOrder(keys: seq<Bytes>, k: Bytes)
    requires Ascending(keys) && k in keys
    ensures Seek(keys, k) < |keys|
    ensures var rest := keys[..Seek(keys, k)] + keys[Seek(keys, k) + 1..];
            Ascending(rest) && forall x :: x in rest <==> x in keys && x != k
  {
    var at :| 0 <= at < |keys| && keys[at] == k;
    var pos := Seek(keys, k);
    LessIrreflexive(k);
    assert pos == at;
    AscendingHasNoDuplicates(keys);
    assert keys == keys[..pos] + [k] + keys[pos + 1..];
  }

  /** What a prefix scan is meant to visit: every key with the prefix, in key order. */
  function Matching(keys: seq<Bytes>, p: Bytes): seq<Bytes>
  {
    if |keys| == 0 then []
    else (if HasPrefix(keys[0], p) then [keys[0]] else []) + Matching(keys[1..], p)
  }

  lemma {:induction false} MatchingElements(keys: seq<Bytes>, p: Bytes)
    requires Ascending(keys)
    ensures forall x :: x in Matching(keys, p) <==> x in keys && HasPrefix(x, p)
    ensures Ascending(Matching(keys, p))
  {
    if |keys| > 0 {
      var rest := Matching(keys[1..], p);
      MatchingElements(keys[1..], p);
      assert forall x :: x in keys <==> x == keys[0] || x in keys[1..];
      forall j | 0 <= j < |rest| ensures Less(keys[0], rest[j]) {
        assert rest[j] in keys[1..];
      }
    }
  }

  lemma {:induction false} MatchingRun(keys: seq<Bytes>, p: Bytes, lo: nat, hi: nat)
    requires lo <= hi <= |keys|
    requires forall i :: 0 <= i < |keys| ==> (HasPrefix(keys[i], p) <==> lo <= i < hi)
    ensures Matching(keys, p) == keys[lo..hi]
  {
    if |keys| > 0 {
      var rest := keys[1..];
      var lo', hi' := if lo > 0 then lo - 1 else 0, if hi > 0 then hi - 1 else 0;
      forall i | 0 <= i < |rest| ensures HasPrefix(rest[i], p) <==> lo' <= i < hi' {
        assert rest[i] == keys[i + 1];
      }
      MatchingRun(rest, p, lo', hi');
      if lo == 0 < hi {
        assert keys[0..hi] == [keys[0]] + rest[0..hi'];
      } else {
        assert keys[lo..hi] == rest[lo'..hi'];
      }
    }
  }

  /** The loop `for k := c.Seek(p); HasPrefix(k, p); k = c.Next()` has reached position `pos`. */
  ghost predicate Scanning(keys: seq<Bytes>, p: Bytes, pos: nat)
  {
    && Seek(keys, p) <= pos <= |keys|
    && forall i :: Seek(keys, p) <= i < pos ==> HasPrefix(keys[i], p)
  }

  /**
   When the scan stops it has visited exactly the matching keys: they form one contiguous run that
   starts where Seek landed.
   */
  lemma ScanVisitsMatching(keys: seq<Bytes>, p: Bytes, pos: nat)
    requires Ascending(keys) && Scanning(keys, p, pos)
    requires pos == |keys| || !HasPrefix(keys[pos], p)
    ensures Matching(keys, p) == keys[Seek(keys, p)..pos]
  {
    var first := Seek(keys, p);
    forall i | 0 <= i < first ensures !HasPrefix(keys[i], p) {
      if HasPrefix(keys[i], p) {
        PrefixIsLowerBound(p, keys[i]);
      }
    }
    forall i | pos <= i < |keys| ensures !HasPrefix(keys[i], p) {
      NothingMatchesAbove(keys, p, pos, i);
    }
    MatchingRun(keys, p, first, pos);
  }

  lemma NothingMatchesAbove(keys: seq<Bytes>, p: Bytes, pos: nat, i: nat)
    requires Ascending(keys) && Seek(keys, p) <= pos <= i < |keys|
    requires !HasPrefix(keys[pos], p)
    ensures !HasPrefix(keys[i], p)
  {
    if Less(keys[pos], p) {
      LessTransitive(keys[Seek(keys, p)], keys[pos], p);
    }
    if pos < i {
      PrefixRunEnds(p, keys[pos], keys[i]);
    }
  }
}
