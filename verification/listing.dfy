/** `find(filter).sort({ field: -1 })` over a keyed collection: the ids of the
    records that pass the filter, each once, in non-increasing order of a key. */
module Listing {

  /** No id is listed twice. */
  predicate Distinct<K(==)>(r: seq<K>)
  {
    forall i, j :: 0 <= i < j < |r| ==> r[i] != r[j]
  }

  /** Every listed id is a key, and keys never increase along the list. */
  predicate SortedBy<K(==), T>(r: seq<K>, m: map<K, T>, key: T -> int)
  {
    && (forall i :: 0 <= i < |r| ==> r[i] in m)
    && (forall i, j :: 0 <= i < j < |r| ==> key(m[r[i]]) >= key(m[r[j]]))
  }

  /** `r` is the answer to the query: exactly the keys whose records pass
      `keep`, each once, newest first by `key`. */
  predicate IsListing<K(==), T>(r: seq<K>, m: map<K, T>, keep: T -> bool, key: T -> int)
  {
    && Distinct(r)
    && SortedBy(r, m, key)
    && (forall i :: 0 <= i < |r| ==> keep(m[r[i]]))
    && (forall k :: k in m && keep(m[k]) ==> k in r)
  }

  /** Insert `k` in front of the first entry whose key is not above its own. */
  function Insert<K, T>(r: seq<K>, k: K, m: map<K, T>, key: T -> int): (r': seq<K>)
    requires k in m && forall i :: 0 <= i < |r| ==> r[i] in m
    ensures |r'| == |r| + 1
    ensures multiset(r') == multiset(r) + multiset{k}
    decreases |r|
  {
    if |r| == 0 then [k]
    else if key(m[k]) >= key(m[r[0]]) then [k] + r
    else
      assert r == [r[0]] + r[1..];
      [r[0]] + Insert(r[1..], k, m, key)
  }

  lemma MembersAfterInsert<K, T>(r: seq<K>, k: K, m: map<K, T>, key: T -> int)
    requires k in m && forall i :: 0 <= i < |r| ==> r[i] in m
    ensures forall x :: x in Insert(r, k, m, key) <==> x == k || x in r
  {
    var r' := Insert(r, k, m, key);
    forall x
      ensures x in r' <==> x == k || x in r
    {
      assert x in r' <==> x in multiset(r');
      assert x in r <==> x in multiset(r);
    }
  }

  /** Insertion keeps the list in non-increasing key order. */
  lemma {:induction false} InsertSorted<K, T>(r: seq<K>, k: K, m: map<K, T>, key: T -> int)
    requires k in m && SortedBy(r, m, key)
    ensures SortedBy(Insert(r, k, m, key), m, key)
    decreases |r|
  {
    var r' := Insert(r, k, m, key);
    MembersAfterInsert(r, k, m, key);
    if |r| == 0 {
    } else if key(m[k]) >= key(m[r[0]]) {
      assert r' == [k] + r;
      forall i, j | 0 <= i < j < |r'|
        ensures key(m[r'[i]]) >= key(m[r'[j]])
      {
        if i == 0 && j > 1 {
          assert key(m[r[0]]) >= key(m[r[j - 1]]);
        }
      }
    } else {
      var t := Insert(r[1..], k, m, key);
      InsertSorted(r[1..], k, m, key);
      MembersAfterInsert(r[1..], k, m, key);
      assert r' == [r[0]] + t;
      forall i | 0 <= i < |t|
        ensures key(m[r[0]]) >= key(m[t[i]])
      {
        assert t[i] in t;
        if t[i] != k {
          var rest := r[1..];
          assert t[i] in rest;
          var j :| 0 <= j < |rest| && rest[j] == t[i];
          assert r[j + 1] == t[i];
        }
      }
      forall i, j | 0 <= i < j < |r'|
        ensures key(m[r'[i]]) >= key(m[r'[j]])
      {
        if i > 0 {
          assert r'[i] == t[i - 1] && r'[j] == t[j - 1];
        } else {
          assert r'[j] == t[j - 1];
        }
      }
    }
  }

  /** Inserting a new id keeps the list free of repeats. */
  lemma InsertDistinct<K, T>(r: seq<K>, k: K, m: map<K, T>, key: T -> int)
    requires k in m && forall i :: 0 <= i < |r| ==> r[i] in m
    requires Distinct(r) && k !in r
    ensures Distinct(Insert(r, k, m, key))
  {
    var r' := Insert(r, k, m, key);
    forall x | x in multiset(r')
      ensures multiset(r')[x] == 1
    {
      assert multiset(r')[x] == multiset(r)[x] + multiset{k}[x];
      if x != k {
        DistinctCountsOnce(r, x);
      }
    }
    forall i, j | 0 <= i < j < |r'|
      ensures r'[i] != r'[j]
    {
      if r'[i] == r'[j] {
        TwoPositionsCountTwice(r', i, j);
      }
    }
  }

  lemma DistinctCountsOnce<K>(r: seq<K>, x: K)
    requires Distinct(r)
    ensures multiset(r)[x] <= 1
  {
    if |r| > 0 {
      assert r == [r[0]] + r[1..];
      DistinctCountsOnce(r[1..], x);
      if r[0] == x {
        assert x !in r[1..];
      }
    }
  }

  lemma TwoPositionsCountTwice<K>(r: seq<K>, i: nat, j: nat)
    requires i < j < |r| && r[i] == r[j]
    ensures multiset(r)[r[i]] >= 2
  {
    assert r == r[..i] + [r[i]] + r[i + 1..j] + [r[j]] + r[j + 1..];
  }

  /** Run the query: pick the matching keys one at a time and insert each into
      the sorted answer. Records with equal keys come out in no promised order. */
  method SortedSelection<K(==), T>(m: map<K, T>, keep: T -> bool, key: T -> int) returns (r: seq<K>)
    ensures IsListing(r, m, keep, key)
  {
    var pending := set k | k in m && keep(m[k]);
    r := [];
    while pending != {}
      invariant forall k :: k in pending ==> k in m && keep(m[k])
      invariant Distinct(r) && SortedBy(r, m, key)
      invariant forall x :: x in r ==> x in m && keep(m[x]) && x !in pending
      invariant forall k :: k in m && keep(m[k]) ==> k in r || k in pending
      decreases pending
    {
      var k :| k in pending;
      InsertSorted(r, k, m, key);
      InsertDistinct(r, k, m, key);
      MembersAfterInsert(r, k, m, key);
      r := Insert(r, k, m, key);
      pending := pending - {k};
    }
    assert forall i :: 0 <= i < |r| ==> r[i] in r;
  }

  /** A listing names each matching key exactly once. */
  lemma ListingCountsOnce<K, T>(r: seq<K>, m: map<K, T>, keep: T -> bool, key: T -> int, k: K)
    requires IsListing(r, m, keep, key) && k in m && keep(m[k])
    ensures multiset(r)[k] == 1
  {
    var i :| 0 <= i < |r| && r[i] == k;
    assert k in multiset(r);
    DistinctCountsOnce(r, k);
  }

  /** A listing whose filter keeps every record is as long as the map. */
  lemma ListingCoversAll<K, T>(r: seq<K>, m: map<K, T>, keep: T -> bool, key: T -> int)
    requires IsListing(r, m, keep, key)
    requires forall k :: k in m ==> keep(m[k])
    ensures |r| == |m|
  {
    var elems := set i | 0 <= i < |r| :: r[i];
    assert elems == m.Keys;
    DistinctLength(r);
  }

  /** A list without repeats is as long as its set of elements. */
  lemma {:induction false} DistinctLength<K>(r: seq<K>)
    requires Distinct(r)
    ensures |set i | 0 <= i < |r| :: r[i]| == |r|
  {
    if |r| > 0 {
      var tail := r[1..];
      DistinctLength(tail);
      var all := set i | 0 <= i < |r| :: r[i];
      var rest := set i | 0 <= i < |tail| :: tail[i];
      assert all == rest + {r[0]};
      assert r[0] !in rest;
    }
  }
}
