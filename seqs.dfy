/**
 * The array operations the components use: `filter`, the stable `sort` of
 * `Array.prototype.sort` with a numeric comparator, and grouping into a dictionary
 * of arrays by `reduce` with `push`.
 */
module Seqs {
  import opened Wrappers

  /** `s.filter(p)`: the elements satisfying `p`, in their original order. */
  function Filter<T>(s: seq<T>, p: T -> bool): (r: seq<T>)
    ensures |r| <= |s|
    ensures forall i :: 0 <= i < |r| ==> p(r[i])
  {
    if s == [] then []
    else
      var f := Filter(s[..|s| - 1], p);
      var x := s[|s| - 1];
      if p(x) then f + [x]
      else f
  }

  /** `r` is obtained from `s` by deleting elements: same relative order. */
  predicate IsSubseq<T(==)>(r: seq<T>, s: seq<T>)
    decreases |s|
  {
    if r == [] then true
    else if s == [] then false
    else
      || (r[|r| - 1] == s[|s| - 1] && IsSubseq(r[..|r| - 1], s[..|s| - 1]))
      || IsSubseq(r, s[..|s| - 1])
  }

  /** Every element of a subsequence occurs in the sequence it was taken from. */
  lemma {:induction false} SubseqMembership<T>(r: seq<T>, s: seq<T>, x: T)
    requires IsSubseq(r, s) && x in r
    ensures x in s
    decreases |s|
  {
    var s' := s[..|s| - 1];
    assert s == s' + [s[|s| - 1]];
    if r[|r| - 1] == s[|s| - 1] && IsSubseq(r[..|r| - 1], s') {
      if x != r[|r| - 1] {
        assert r == r[..|r| - 1] + [r[|r| - 1]];
        SubseqMembership(r[..|r| - 1], s', x);
      }
    } else {
      SubseqMembership(r, s', x);
    }
  }

  /** The filter keeps the surviving elements in their original order. */
  lemma {:induction false} FilterIsSubseq<T>(s: seq<T>, p: T -> bool)
    ensures IsSubseq(Filter(s, p), s)
  {
    if s != [] {
      var s' := s[..|s| - 1];
      FilterIsSubseq(s', p);
      var f := Filter(s', p);
      if p(s[|s| - 1]) {
        assert (f + [s[|s| - 1]])[..|f|] == f;
      }
    }
  }

  /** An element is kept by the filter exactly when it occurs in `s` and satisfies `p`. */
  lemma {:induction false} FilterMembership<T>(s: seq<T>, p: T -> bool, x: T)
    ensures x in Filter(s, p) <==> x in s && p(x)
  {
    if s != [] {
      FilterMembership(s[..|s| - 1], p, x);
      assert s == s[..|s| - 1] + [s[|s| - 1]];
    }
  }

  /** Filtering distributes over concatenation. */
  lemma {:induction false} FilterAppend<T>(a: seq<T>, b: seq<T>, p: T -> bool)
    ensures Filter(a + b, p) == Filter(a, p) + Filter(b, p)
    decreases |b|
  {
    if b == [] {
      assert a + b == a;
    } else {
      var b', y := b[..|b| - 1], b[|b| - 1];
      assert (a + b)[..|a + b| - 1] == a + b';
      assert (a + b)[|a + b| - 1] == y;
      FilterAppend(a, b', p);
    }
  }

  /**
   * Two filters with complementary predicates split `s` in two: together they hold
   * every element of `s` exactly as often as `s` does, and no position goes to both.
   */
  lemma {:induction false} FilterPartition<T>(s: seq<T>, p: T -> bool, q: T -> bool)
    requires forall x :: q(x) == !p(x)
    ensures multiset(Filter(s, p)) + multiset(Filter(s, q)) == multiset(s)
    ensures |Filter(s, p)| + |Filter(s, q)| == |s|
  {
    if s != [] {
      var s', x := s[..|s| - 1], s[|s| - 1];
      FilterPartition(s', p, q);
      assert s == s' + [x];
      assert multiset(s) == multiset(s') + multiset{x};
      if p(x) {
        assert Filter(s, p) == Filter(s', p) + [x];
        assert Filter(s, q) == Filter(s', q);
      } else {
        assert Filter(s, p) == Filter(s', p);
        assert Filter(s, q) == Filter(s', q) + [x];
      }
    }
  }

  /** Number of elements of `s` satisfying `p`. */
  function Count<T>(s: seq<T>, p: T -> bool): nat {
    |Filter(s, p)|
  }

  /** `s.findIndex(p)`: the first index whose element satisfies `p`, or -1. */
  function FindIndex<T>(s: seq<T>, p: T -> bool): (r: int)
    ensures -1 <= r < |s|
    ensures r >= 0 ==> p(s[r]) && forall j :: 0 <= j < r ==> !p(s[j])
    ensures r == -1 <==> forall j :: 0 <= j < |s| ==> !p(s[j])
  {
    if s == [] then -1
    else if p(s[0]) then 0
    else var k := FindIndex(s[1..], p); if k == -1 then -1 else k + 1
  }

  /** `s.find(p)` in its Option form. */
  function Find<T>(s: seq<T>, p: T -> bool): (r: Option<T>)
    ensures r.Some? <==> exists j :: 0 <= j < |s| && p(s[j])
    ensures r.Some? ==> var k := FindIndex(s, p); k >= 0 && r.value == s[k]
  {
    var k := FindIndex(s, p);
    if k == -1 then None else Some(s[k])
  }

  // ---------------------------------------------------------------- sorting

  /** Ascending order of keys. */
  predicate SortedBy<T>(s: seq<T>, key: T -> int) {
    forall i, j :: 0 <= i < j < |s| ==> key(s[i]) <= key(s[j])
  }

  /** Inserts `x` before the first element whose key is not smaller than its own. */
  function InsertBy<T>(x: T, s: seq<T>, key: T -> int): (r: seq<T>)
    ensures |r| == |s| + 1
    ensures multiset(r) == multiset(s) + multiset{x}
    ensures r[0] == if s == [] || key(x) <= key(s[0]) then x else s[0]
  {
    if s == [] || key(x) <= key(s[0]) then [x] + s
    else
      assert s == [s[0]] + s[1..];
      [s[0]] + InsertBy(x, s[1..], key)
  }

  /** Inserting a key no smaller than `lo` among keys no smaller than `lo` keeps them all at least `lo`. */
  lemma {:induction false} InsertBounded<T>(x: T, s: seq<T>, key: T -> int, lo: int)
    requires lo <= key(x)
    requires forall j :: 0 <= j < |s| ==> lo <= key(s[j])
    ensures forall j :: 0 <= j < |InsertBy(x, s, key)| ==> lo <= key(InsertBy(x, s, key)[j])
  {
    if s != [] && key(x) > key(s[0]) {
      InsertBounded(x, s[1..], key, lo);
      var t := InsertBy(x, s[1..], key);
      forall j | 0 <= j < |t| + 1 ensures lo <= key(([s[0]] + t)[j]) {
        if j > 0 {
          assert ([s[0]] + t)[j] == t[j - 1];
        }
      }
    }
  }

  lemma {:induction false} InsertSorted<T>(x: T, s: seq<T>, key: T -> int)
    requires SortedBy(s, key)
    ensures SortedBy(InsertBy(x, s, key), key)
  {
    if s != [] && key(x) > key(s[0]) {
      var s' := s[1..];
      assert SortedBy(s', key) by {
        forall i, j | 0 <= i < j < |s'| ensures key(s'[i]) <= key(s'[j]) {
          assert s'[i] == s[i + 1] && s'[j] == s[j + 1];
        }
      }
      InsertSorted(x, s', key);
      assert forall j :: 0 <= j < |s'| ==> key(s[0]) <= key(s'[j]) by {
        forall j | 0 <= j < |s'| ensures key(s[0]) <= key(s'[j]) {
          assert s'[j] == s[j + 1];
        }
      }
      InsertBounded(x, s', key, key(s[0]));
      var t := InsertBy(x, s', key);
      var r := [s[0]] + t;
      forall i, j | 0 <= i < j < |r| ensures key(r[i]) <= key(r[j]) {
        assert r[j] == t[j - 1];
        if i > 0 {
          assert r[i] == t[i - 1];
        }
      }
    }
  }

  /**
   * `[...s].sort((a, b) => key(a) - key(b))`: a stable sort by ascending key (an
   * element never overtakes an earlier one with the same key).
   */
  function SortBy<T>(s: seq<T>, key: T -> int): (r: seq<T>)
    ensures |r| == |s|
    ensures multiset(r) == multiset(s)
    ensures SortedBy(r, key)
  {
    if s == [] then []
    else
      assert s == [s[0]] + s[1..];
      var t := SortBy(s[1..], key);
      InsertSorted(s[0], t, key);
      InsertBy(s[0], t, key)
  }

  /** Index of the first element with the smallest key. */
  function FirstMinIndex<T>(s: seq<T>, key: T -> int): (i: nat)
    requires |s| > 0
    ensures i < |s|
    ensures forall j :: 0 <= j < |s| ==> key(s[i]) <= key(s[j])
    ensures forall j :: 0 <= j < i ==> key(s[j]) > key(s[i])
  {
    if |s| == 1 then 0
    else
      var j := 1 + FirstMinIndex(s[1..], key);
      if key(s[0]) <= key(s[j]) then 0 else j
  }

  /** Stability at the head: the first element after sorting is the earliest one with the smallest key. */
  lemma {:induction false} SortHead<T>(s: seq<T>, key: T -> int)
    requires |s| > 0
    ensures SortBy(s, key)[0] == s[FirstMinIndex(s, key)]
  {
    if |s| > 1 {
      SortHead(s[1..], key);
    }
  }

  /** Sorting two sequences together keeps every element of both, and nothing else. */
  lemma SortByMerge<T>(xs: seq<T>, ys: seq<T>, key: T -> int)
    ensures multiset(SortBy(xs + ys, key)) == multiset(xs) + multiset(ys)
    ensures forall x :: x in xs || x in ys ==> x in SortBy(xs + ys, key)
  {
    assert multiset(xs + ys) == multiset(xs) + multiset(ys);
    forall x | x in xs || x in ys ensures x in SortBy(xs + ys, key) {
      assert x in multiset(xs + ys);
    }
  }

  /**
   * The head of the sorted filter: an element of `s` satisfying `p` whose key is the
   * smallest among them, and the earliest of the filtered elements with that key.
   */
  lemma {:induction false} SortedFilterHead<T>(s: seq<T>, p: T -> bool, key: T -> int)
    requires Filter(s, p) != []
    ensures var r := SortBy(Filter(s, p), key)[0];
      r in s && p(r) && forall t :: t in s && p(t) ==> key(r) <= key(t)
    ensures var a := Filter(s, p); var r := SortBy(a, key)[0];
      exists k :: 0 <= k < |a| && a[k] == r && forall j :: 0 <= j < k ==> key(a[j]) > key(r)
  {
    var a := Filter(s, p);
    SortHead(a, key);
    var k := FirstMinIndex(a, key);
    var r := a[k];
    FilterMembership(s, p, r);
    forall t | t in s && p(t) ensures key(r) <= key(t) {
      FilterMembership(s, p, t);
      var j :| 0 <= j < |a| && a[j] == t;
    }
  }

  // ---------------------------------------------------------------- grouping

  /** Distinct keys of `s` in order of first occurrence (the key order of the dictionary). */
  function KeysInOrder<T>(s: seq<T>, key: T -> string): (r: seq<string>)
    ensures forall i, j :: 0 <= i < j < |r| ==> r[i] != r[j]
    ensures forall i :: 0 <= i < |s| ==> key(s[i]) in r
    ensures forall k :: k in r ==> exists i :: 0 <= i < |s| && key(s[i]) == k
  {
    if s == [] then []
    else
      var d := KeysInOrder(s[..|s| - 1], key);
      var k := key(s[|s| - 1]);
      assert forall i :: 0 <= i < |s| - 1 ==> s[i] == s[..|s| - 1][i];
      if k in d then d else d + [k]
  }

  /** The elements of `s` whose key is `k`, in their original order. */
  function Bucket<T>(s: seq<T>, key: T -> string, k: string): (r: seq<T>)
    ensures forall i :: 0 <= i < |r| ==> key(r[i]) == k
  {
    if s == [] then []
    else
      var b := Bucket(s[..|s| - 1], key, k);
      var x := s[|s| - 1];
      if key(x) == k then b + [x]
      else b
  }

  /** A bucket keeps its elements in their original order. */
  lemma {:induction false} BucketIsSubseq<T>(s: seq<T>, key: T -> string, k: string)
    ensures IsSubseq(Bucket(s, key, k), s)
  {
    if s != [] {
      var s' := s[..|s| - 1];
      BucketIsSubseq(s', key, k);
      var b := Bucket(s', key, k);
      if key(s[|s| - 1]) == k {
        assert (b + [s[|s| - 1]])[..|b|] == b;
      }
    }
  }

  /** An element is in the bucket of `k` exactly when it occurs in `s` with key `k`. */
  lemma {:induction false} BucketMembership<T>(s: seq<T>, key: T -> string, k: string, x: T)
    ensures x in Bucket(s, key, k) <==> x in s && key(x) == k
  {
    if s != [] {
      BucketMembership(s[..|s| - 1], key, k, x);
      assert s == s[..|s| - 1] + [s[|s| - 1]];
    }
  }

  /** The buckets of `keys`, concatenated in order. */
  function Concat<T>(s: seq<T>, key: T -> string, keys: seq<string>): seq<T> {
    if keys == [] then [] else Bucket(s, key, keys[0]) + Concat(s, key, keys[1..])
  }

  lemma {:induction false} ConcatSnoc<T>(s: seq<T>, key: T -> string, keys: seq<string>, k: string)
    ensures Concat(s, key, keys + [k]) == Concat(s, key, keys) + Bucket(s, key, k)
  {
    if keys != [] {
      assert (keys + [k])[1..] == keys[1..] + [k];
      ConcatSnoc(s, key, keys[1..], k);
    }
  }

  lemma {:induction false} ConcatGrow<T>(s: seq<T>, key: T -> string, keys: seq<string>, x: T)
    requires forall i, j :: 0 <= i < j < |keys| ==> keys[i] != keys[j]
    ensures multiset(Concat(s + [x], key, keys))
      == multiset(Concat(s, key, keys)) + if key(x) in keys then multiset{x} else multiset{}
  {
    if keys != [] {
      assert (s + [x])[..|s + [x]| - 1] == s;
      ConcatGrow(s, key, keys[1..], x);
    }
  }

  lemma {:induction false} BucketOfAbsentKey<T>(s: seq<T>, key: T -> string, k: string)
    requires k !in KeysInOrder(s, key)
    ensures Bucket(s, key, k) == []
  {
    if s != [] {
      BucketOfAbsentKey(s[..|s| - 1], key, k);
    }
  }

  /** When every element has the same key there is one bucket, holding everything. */
  lemma {:induction false} SingleKey<T>(s: seq<T>, key: T -> string, k: string)
    requires |s| > 0 && forall i :: 0 <= i < |s| ==> key(s[i]) == k
    ensures KeysInOrder(s, key) == [k]
    ensures Bucket(s, key, k) == s
  {
    var s' := s[..|s| - 1];
    if |s'| > 0 {
      SingleKey(s', key, k);
    }
    assert s == s' + [s[|s| - 1]];
  }

  /** Every element lands in exactly one bucket: the buckets together are a permutation of `s`. */
  lemma {:induction false} BucketsPartition<T>(s: seq<T>, key: T -> string)
    ensures multiset(Concat(s, key, KeysInOrder(s, key))) == multiset(s)
  {
    if s != [] {
      var s', x := s[..|s| - 1], s[|s| - 1];
      assert s == s' + [x];
      var ks := KeysInOrder(s', key);
      BucketsPartition(s', key);
      ConcatGrow(s', key, ks, x);
      if key(x) !in ks {
        ConcatSnoc(s, key, ks, key(x));
        BucketOfAbsentKey(s', key, key(x));
        assert Bucket(s, key, key(x)) == [x];
      }
    }
  }

  /**
   * `s.reduce((acc, x) => { (acc[key(x)] ||= []).push(x); return acc; }, {})`:
   * builds the dictionary of buckets one element at a time.
   */
  method GroupBy<T>(s: seq<T>, key: T -> string) returns (keys: seq<string>, groups: map<string, seq<T>>)
    ensures keys == KeysInOrder(s, key)
    ensures forall k :: k in groups <==> k in keys
    ensures forall k :: k in groups ==> groups[k] == Bucket(s, key, k)
  {
    keys, groups := [], map[];
    var i := 0;
    while i < |s|
      invariant 0 <= i <= |s|
      invariant keys == KeysInOrder(s[..i], key)
      invariant forall k :: k in groups <==> k in keys
      invariant forall k :: k in groups ==> groups[k] == Bucket(s[..i], key, k)
    {
      var x := s[i];
      var k := key(x);
      assert s[..i + 1] == s[..i] + [x];
      if k !in groups {
        BucketOfAbsentKey(s[..i], key, k);
        groups := groups[k := []];
        keys := keys + [k];
      }
      groups := groups[k := groups[k] + [x]];
      forall k' | k' in groups ensures groups[k'] == Bucket(s[..i + 1], key, k') {
        BucketSnoc(s[..i], x, key, k');
      }
      i := i + 1;
    }
    assert s[..i] == s;
  }

  /** Appending one element adds it to its own bucket and to no other. */
  lemma BucketSnoc<T>(s: seq<T>, x: T, key: T -> string, k: string)
    ensures Bucket(s + [x], key, k) == Bucket(s, key, k) + if key(x) == k then [x] else []
  {
    assert (s + [x])[..|s|] == s;
  }

  /** `slice(-n)`: the last `n` entries, or all of them when there are fewer. */
  function LastN<T>(s: seq<T>, n: nat): (r: seq<T>)
    ensures |r| == if |s| < n then |s| else n
    ensures r == s[|s| - |r|..]
  {
    if |s| <= n then s else s[|s| - n..]
  }

  /** A suffix of a sorted sequence is sorted and comes after everything before it. */
  lemma SortedSuffix<T>(s: seq<T>, d: nat, key: T -> int)
    requires d <= |s|
    requires SortedBy(s, key)
    ensures SortedBy(s[d..], key)
    ensures forall i, j :: 0 <= i < d && 0 <= j < |s| - d ==> key(s[i]) <= key(s[d..][j])
  {
    var r := s[d..];
    forall i, j | 0 <= i < j < |r| ensures key(r[i]) <= key(r[j]) {
      assert r[i] == s[d + i];
      assert r[j] == s[d + j];
    }
    forall i, j | 0 <= i < d && 0 <= j < |r| ensures key(s[i]) <= key(r[j]) {
      assert r[j] == s[d + j];
    }
  }

  /** The last `n` of a sorted sequence are sorted and come after everything cut off. */
  lemma LastNOfSorted<T>(s: seq<T>, n: nat, key: T -> int)
    requires SortedBy(s, key)
    ensures SortedBy(LastN(s, n), key)
    ensures forall i, j :: 0 <= i < |s| - |LastN(s, n)| && 0 <= j < |LastN(s, n)| ==>
      key(s[i]) <= key(LastN(s, n)[j])
  {
    var d := |s| - |LastN(s, n)|;
    assert LastN(s, n) == s[d..];
    SortedSuffix(s, d, key);
  }

  /** `slice(0, n)`: the first `n` entries, or all of them when there are fewer. */
  function FirstN<T>(s: seq<T>, n: nat): (r: seq<T>)
    ensures |r| == if |s| < n then |s| else n
    ensures r == s[..|r|]
  {
    if |s| <= n then s else s[..n]
  }
}
