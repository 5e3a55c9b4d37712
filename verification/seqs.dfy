/** Sequence queries shared by the directories, the UI filters and the timeline. */
module Seqs {
  import opened Wrappers

  /** Index of the first element satisfying `p`: what a query without a sort order
      returns when it scans a collection in natural (insertion) order. */
  function First<T>(s: seq<T>, p: T -> bool): (r: Option<nat>)
    ensures r.Some? ==> r.value < |s| && p(s[r.value])
    ensures r.Some? ==> forall k :: 0 <= k < r.value ==> !p(s[k])
    ensures r.None? <==> forall k :: 0 <= k < |s| ==> !p(s[k])
  {
    if |s| == 0 then None
    else if p(s[0]) then Some(0)
    else
      match First(s[1..], p)
      case None => None
      case Some(i) => Some(i + 1)
  }

  /** The elements satisfying `p`, in their original order (JavaScript's
      `Array.filter`). How often each is kept is stated by `FilterCounts`, the
      order by `FilterConcat`. */
  function Filter<T>(s: seq<T>, p: T -> bool): (r: seq<T>)
    ensures |r| <= |s|
    ensures forall k :: 0 <= k < |r| ==> r[k] in s && p(r[k])
    ensures forall k :: 0 <= k < |s| && p(s[k]) ==> s[k] in r
  {
    if |s| == 0 then []
    else if p(s[0]) then [s[0]] + Filter(s[1..], p)
    else Filter(s[1..], p)
  }

  /** Filtering drops only elements that fail `p`: each element that passes is
      kept as often as it occurs. */
  lemma {:induction false} FilterCounts<T>(s: seq<T>, p: T -> bool)
    ensures multiset(Filter(s, p)) <= multiset(s)
    ensures forall k :: 0 <= k < |s| && p(s[k]) ==> multiset(Filter(s, p))[s[k]] == multiset(s)[s[k]]
    decreases |s|
  {
    if |s| > 0 {
      var tail := s[1..];
      FilterCounts(tail, p);
      var rest := Filter(tail, p);
      assert multiset(s) == multiset{s[0]} + multiset(tail) by {
        assert s == [s[0]] + tail;
      }
      assert multiset(Filter(s, p)) == (if p(s[0]) then multiset{s[0]} else multiset{}) + multiset(rest) by {
        if p(s[0]) {
          assert Filter(s, p) == [s[0]] + rest;
        }
      }
      forall k | 0 <= k < |s| && p(s[k])
        ensures multiset(Filter(s, p))[s[k]] == multiset(s)[s[k]]
      {
        if k > 0 {
          assert s[k] == tail[k - 1];
        }
      }
    }
  }

  /** Filtering distributes over concatenation, so it keeps the relative order of what it keeps. */
  lemma {:induction false} FilterConcat<T>(a: seq<T>, b: seq<T>, p: T -> bool)
    ensures Filter(a + b, p) == Filter(a, p) + Filter(b, p)
    decreases |a|
  {
    if |a| == 0 {
      assert a + b == b;
    } else {
      assert (a + b)[1..] == a[1..] + b;
      FilterConcat(a[1..], b, p);
    }
  }

  /** Filtering with a predicate every element satisfies changes nothing. */
  lemma {:induction false} FilterAll<T>(s: seq<T>, p: T -> bool)
    requires forall k :: 0 <= k < |s| ==> p(s[k])
    ensures Filter(s, p) == s
    decreases |s|
  {
    if |s| > 0 {
      FilterAll(s[1..], p);
    }
  }

  /** JavaScript's `Array.indexOf`: the first position of `x`, or -1 when it is absent. */
  function IndexOf<T(==)>(s: seq<T>, x: T): (r: int)
    ensures -1 <= r < |s|
    ensures r == -1 <==> x !in s
    ensures 0 <= r ==> s[r] == x && x !in s[..r]
  {
    if |s| == 0 then -1
    else if s[0] == x then 0
    else
      var i := IndexOf(s[1..], x);
      assert s[1..][..if i < 0 then 0 else i] == s[1..if i < 0 then 1 else i + 1];
      if i < 0 then -1 else i + 1
  }

  /** The sequence with position `i` removed. */
  function RemoveAt<T>(s: seq<T>, i: nat): (r: seq<T>)
    requires i < |s|
    ensures |r| == |s| - 1
    ensures forall k :: 0 <= k < i ==> r[k] == s[k]
    ensures forall k :: i <= k < |r| ==> r[k] == s[k + 1]
  {
    s[..i] + s[i + 1..]
  }
}
