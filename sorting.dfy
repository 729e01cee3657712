// Ordering of fetched rows and of in-memory vectors: `ORDER BY <key> ASC`
// in the queries and `Vec::sort_by` in the client. Both are modelled by
// one insertion sort on an integer key.

module Sorting {

  predicate SortedBy<T>(s: seq<T>, key: T -> int) {
    forall i, j :: 0 <= i < j < |s| ==> key(s[i]) <= key(s[j])
  }

  function Insert<T>(x: T, s: seq<T>, key: T -> int): (r: seq<T>)
    requires SortedBy(s, key)
    ensures SortedBy(r, key)
    ensures multiset(r) == multiset(s) + multiset{x}
    ensures |r| == |s| + 1
  {
    if s == [] then [x]
    else if key(x) <= key(s[0]) then [x] + s
    else
      var rest := Insert(x, s[1..], key);
      assert s == [s[0]] + s[1..];
      assert forall i :: 0 <= i < |rest| ==> key(s[0]) <= key(rest[i]) by {
        forall i | 0 <= i < |rest|
          ensures key(s[0]) <= key(rest[i])
        {
          assert rest[i] in multiset(rest);
          if rest[i] != x {
            assert rest[i] in multiset(s[1..]);
            var j :| 0 <= j < |s[1..]| && s[1..][j] == rest[i];
            assert s[j + 1] == rest[i];
          }
        }
      }
      SortedCons(s[0], rest, key);
      [s[0]] + rest
  }

  lemma SortedCons<T>(h: T, rest: seq<T>, key: T -> int)
    requires SortedBy(rest, key)
    requires forall i :: 0 <= i < |rest| ==> key(h) <= key(rest[i])
    ensures SortedBy([h] + rest, key)
  {
    var r := [h] + rest;
    forall i, j | 0 <= i < j < |r|
      ensures key(r[i]) <= key(r[j])
    {
      assert r[j] == rest[j - 1];
      if i > 0 {
        assert r[i] == rest[i - 1];
      }
    }
  }

  /** A permutation of `s` in ascending order of `key`. */
  function SortBy<T>(s: seq<T>, key: T -> int): (r: seq<T>)
    ensures SortedBy(r, key)
    ensures multiset(r) == multiset(s)
    ensures |r| == |s|
  {
    if s == [] then []
    else
      assert s == [s[0]] + s[1..];
      Insert(s[0], SortBy(s[1..], key), key)
  }

  /** Sorting what is already sorted changes nothing. */
  lemma {:induction false} SortSorted<T>(s: seq<T>, key: T -> int)
    requires SortedBy(s, key)
    ensures SortBy(s, key) == s
  {
    if s != [] {
      assert SortedBy(s[1..], key);
      SortSorted(s[1..], key);
      assert Insert(s[0], s[1..], key) == s;
    }
  }

  function RemoveAt<T>(s: seq<T>, i: nat): (r: seq<T>)
    requires i < |s|
    ensures |r| == |s| - 1
    ensures forall k :: 0 <= k < i ==> r[k] == s[k]
    ensures forall k :: i <= k < |r| ==> r[k] == s[k + 1]
  {
    s[..i] + s[i + 1..]
  }

  lemma RemoveAtMultiset<T>(s: seq<T>, i: nat)
    requires i < |s|
    ensures multiset(RemoveAt(s, i)) == multiset(s) - multiset{s[i]}
  {
    assert s == s[..i] + [s[i]] + s[i + 1..];
  }

  lemma RemoveAtSorted<T>(s: seq<T>, i: nat, key: T -> int)
    requires i < |s| && SortedBy(s, key)
    ensures SortedBy(RemoveAt(s, i), key)
  {
    var r := RemoveAt(s, i);
    forall p, q | 0 <= p < q < |r|
      ensures key(r[p]) <= key(r[q])
    {
      var p' := if p < i then p else p + 1;
      var q' := if q < i then q else q + 1;
      assert r[p] == s[p'] && r[q] == s[q'];
    }
  }

  /** Two sorted permutations of one multiset agree on the keys at every
      position: only elements with equal keys can trade places. */
  lemma {:induction false} SortedPermutationsAgreeOnKeys<T>(a: seq<T>, b: seq<T>, key: T -> int)
    requires SortedBy(a, key) && SortedBy(b, key)
    requires multiset(a) == multiset(b)
    ensures |a| == |b|
    ensures forall i :: 0 <= i < |a| ==> key(a[i]) == key(b[i])
    decreases |a|
  {
    assert |a| == |multiset(a)| == |multiset(b)| == |b|;
    if a != [] {
      assert a[0] in multiset(b);
      assert b[0] in multiset(a);
      var i :| 0 <= i < |b| && b[i] == a[0];
      var j :| 0 <= j < |a| && a[j] == b[0];
      assert key(b[i]) == key(b[0]) && key(a[0]) == key(b[0]) by {
        assert key(a[0]) <= key(a[j]) == key(b[0]) <= key(b[i]) == key(a[0]);
      }
      // Every element of `b` up to position i has the least key.
      var b' := RemoveAt(b, i);
      assert SortedBy(a[1..], key) && SortedBy(b', key) && multiset(a[1..]) == multiset(b') by {
        RemoveAtMultiset(b, i);
        RemoveAtSorted(b, i, key);
        assert a == [a[0]] + a[1..];
        assert multiset(a[1..]) == multiset(a) - multiset{a[0]};
      }
      SortedPermutationsAgreeOnKeys(a[1..], b', key);
      forall m | 0 <= m < |a| - 1
        ensures key(a[m + 1]) == key(b'[m])
      {
        assert a[m + 1] == a[1..][m];
      }
      KeysAfterRemoval(a, b, i, key);
    }
  }

  lemma KeysAfterRemoval<T>(a: seq<T>, b: seq<T>, i: nat, key: T -> int)
    requires SortedBy(b, key) && i < |b| && |a| == |b|
    requires key(b[i]) == key(b[0]) && key(a[0]) == key(b[0])
    requires forall m :: 0 <= m < |a| - 1 ==> key(a[m + 1]) == key(RemoveAt(b, i)[m])
    ensures forall k :: 0 <= k < |a| ==> key(a[k]) == key(b[k])
  {
    var b' := RemoveAt(b, i);
    forall k | 0 < k < |a|
      ensures key(a[k]) == key(b[k])
    {
      assert key(a[k]) == key(b'[k - 1]);
      if k <= i {
        assert b'[k - 1] == b[k - 1];
        assert key(b[0]) <= key(b[k - 1]) <= key(b[k]) <= key(b[i]);
      } else {
        assert b'[k - 1] == b[k];
      }
    }
  }
}
