/** Order-preserving filtering and key-ordered sorting of sequences: the two
    collection operations the report is built from (Swift's `filter` and
    `sorted(by:)`). */
module Seqs {

  /** The elements of `s` that satisfy `keep`, in their original order. */
  function FilterBy<T(==,!new)>(s: seq<T>, keep: T -> bool): (r: seq<T>)
    ensures |r| <= |s|
    ensures forall x :: x in r <==> x in s && keep(x)
  {
    if |s| == 0 then []
    else if keep(s[0]) then [s[0]] + FilterBy(s[1..], keep)
    else FilterBy(s[1..], keep)
  }

  /** Filtering keeps every kept element as often as it occurs and drops
      every other element entirely. */
  lemma {:induction false} FilterByCounts<T(!new)>(s: seq<T>, keep: T -> bool)
    ensures forall x :: multiset(FilterBy(s, keep))[x] == if keep(x) then multiset(s)[x] else 0
  {
    if |s| > 0 {
      assert s == [s[0]] + s[1..];
      FilterByCounts(s[1..], keep);
    }
  }

  /** Filtering distributes over concatenation, so it keeps relative order. */
  lemma {:induction false} FilterByConcat<T(!new)>(a: seq<T>, b: seq<T>, keep: T -> bool)
    ensures FilterBy(a + b, keep) == FilterBy(a, keep) + FilterBy(b, keep)
  {
    if |a| == 0 {
      assert a + b == b;
    } else {
      assert (a + b)[0] == a[0];
      assert (a + b)[1..] == a[1..] + b;
      FilterByConcat(a[1..], b, keep);
    }
  }

  /** Two sequences with the same elements (counted with multiplicity) have
      filtered versions of the same length. */
  lemma FilterByLengthOfPermutation<T(!new)>(a: seq<T>, b: seq<T>, keep: T -> bool)
    requires multiset(a) == multiset(b)
    ensures multiset(FilterBy(a, keep)) == multiset(FilterBy(b, keep))
    ensures |FilterBy(a, keep)| == |FilterBy(b, keep)|
  {
    var fa, fb := FilterBy(a, keep), FilterBy(b, keep);
    FilterByCounts(a, keep);
    FilterByCounts(b, keep);
    assert forall x :: multiset(fa)[x] == multiset(fb)[x];
    assert multiset(fa) == multiset(fb);
    assert |fa| == |multiset(fa)| == |multiset(fb)| == |fb|;
  }

  /** `s` is in non-decreasing order of `key`. */
  predicate SortedBy<T>(s: seq<T>, key: T -> real) {
    forall i, j :: 0 <= i < j < |s| ==> key(s[i]) <= key(s[j])
  }

  /** Inserts `x` into the sorted `s`, after every element whose key is
      smaller than the key of `x` and before the rest, so that an element
      inserted this way precedes those with an equal key. */
  function InsertBy<T(==,!new)>(x: T, s: seq<T>, key: T -> real): (r: seq<T>)
    requires SortedBy(s, key)
    ensures |r| == |s| + 1
    ensures multiset(r) == multiset(s) + multiset{x}
    ensures SortedBy(r, key)
  {
    if |s| == 0 then [x]
    else if key(x) <= key(s[0]) then [x] + s
    else
      var tail := InsertBy(x, s[1..], key);
      assert s == [s[0]] + s[1..];
      assert forall k :: 0 <= k < |tail| ==> key(s[0]) <= key(tail[k]) by {
        forall k | 0 <= k < |tail| ensures key(s[0]) <= key(tail[k]) {
          assert tail[k] in multiset(tail);
          if tail[k] != x {
            assert tail[k] in multiset(s[1..]);
            var m :| 0 <= m < |s[1..]| && s[1..][m] == tail[k];
            assert s[m + 1] == tail[k];
          }
        }
      }
      SortedCons(s[0], tail, key);
      [s[0]] + tail
  }

  /** A sorted sequence stays sorted behind an element whose key is not
      greater than any of its keys. */
  lemma SortedCons<T>(h: T, tail: seq<T>, key: T -> real)
    requires SortedBy(tail, key)
    requires forall k :: 0 <= k < |tail| ==> key(h) <= key(tail[k])
    ensures SortedBy([h] + tail, key)
  {
    var r := [h] + tail;
    forall i, j | 0 <= i < j < |r| ensures key(r[i]) <= key(r[j]) {
      assert r[j] == tail[j - 1];
      if i > 0 {
        assert r[i] == tail[i - 1];
      }
    }
  }

  /** A permutation of `s` in non-decreasing order of `key` (insertion sort). */
  function SortBy<T(==,!new)>(s: seq<T>, key: T -> real): (r: seq<T>)
    ensures |r| == |s|
    ensures multiset(r) == multiset(s)
    ensures SortedBy(r, key)
  {
    if |s| == 0 then []
    else
      assert s == [s[0]] + s[1..];
      InsertBy(s[0], SortBy(s[1..], key), key)
  }

  /** In a sorted sequence the first element has the least key and the last
      one the greatest. */
  lemma SortedEnds<T>(s: seq<T>, key: T -> real)
    requires SortedBy(s, key) && |s| > 0
    ensures forall x :: x in s ==> key(s[0]) <= key(x) <= key(s[|s| - 1])
  {
    forall x | x in s
      ensures key(s[0]) <= key(x) <= key(s[|s| - 1])
    {
      var k :| 0 <= k < |s| && s[k] == x;
    }
  }

  /** Two sorted arrangements of the same elements agree on the least and
      the greatest key, whatever order they give to equal keys. */
  lemma SortedPermutationsShareEnds<T>(s: seq<T>, t: seq<T>, key: T -> real)
    requires SortedBy(s, key) && SortedBy(t, key)
    requires multiset(s) == multiset(t) && |s| > 0
    ensures |t| == |s|
    ensures key(s[0]) == key(t[0])
    ensures key(s[|s| - 1]) == key(t[|t| - 1])
  {
    assert |t| == |multiset(t)| == |multiset(s)| == |s|;
    assert s[0] in multiset(t) && t[0] in multiset(s);
    assert s[|s| - 1] in multiset(t) && t[|t| - 1] in multiset(s);
    SortedEnds(s, key);
    SortedEnds(t, key);
  }
}
