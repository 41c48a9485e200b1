/**
 * Ordering by a numeric key, highest first, as both the store's
 * `.sort({ createdAt: -1 })` and the backend's in-memory
 * `.sort((a, b) => bTime - aTime)` do. JavaScript's `Array.prototype.sort`
 * is stable, so items with equal keys keep their relative order; SortDesc
 * is the stable insertion sort with that behaviour.
 *
 * The theorems at the end justify the feeds' "pre-limit each source, merge,
 * sort, slice" strategy: when no two distinct items share a key, taking the
 * first n of each sorted source before merging loses nothing.
 */
module Ordering {
  import opened Seqs

  predicate SortedDesc<T>(s: seq<T>, key: T -> int) {
    forall i, j :: 0 <= i < j < |s| ==> key(s[i]) >= key(s[j])
  }

  /** Items that share a key are the same item ("distinct timestamps"). */
  predicate KeyInjective<T(==)>(s: seq<T>, key: T -> int) {
    forall i, j :: 0 <= i < |s| && 0 <= j < |s| && key(s[i]) == key(s[j]) ==> s[i] == s[j]
  }

  /** Places `x` before the first item whose key does not exceed its own. */
  function Insert<T(==)>(x: T, s: seq<T>, key: T -> int): (r: seq<T>)
    ensures multiset(r) == multiset(s) + multiset{x}
    ensures |r| == |s| + 1
  {
    if s == [] || key(s[0]) <= key(x) then [x] + s
    else
      assert s == [s[0]] + s[1..];
      [s[0]] + Insert(x, s[1..], key)
  }

  lemma {:induction false} InsertSorted<T>(x: T, s: seq<T>, key: T -> int)
    requires SortedDesc(s, key)
    ensures SortedDesc(Insert(x, s, key), key)
  {
    if s != [] && key(s[0]) > key(x) {
      InsertSorted(x, s[1..], key);
      var r := Insert(x, s, key);
      var tail := Insert(x, s[1..], key);
      forall j | 0 < j < |r|
        ensures key(r[0]) >= key(r[j])
      {
        assert r[j] in multiset(tail);
        assert r[j] == x || r[j] in s[1..];
      }
    }
  }

  /** The stable sort, highest key first: a sorted permutation of its input. */
  function SortDesc<T(==)>(s: seq<T>, key: T -> int): (r: seq<T>)
    ensures SortedDesc(r, key)
    ensures multiset(r) == multiset(s)
    ensures |r| == |s|
  {
    if s == [] then []
    else
      assert s == [s[0]] + s[1..];
      var rest := SortDesc(s[1..], key);
      InsertSorted(s[0], rest, key);
      Insert(s[0], rest, key)
  }

  /** Sorting an already sorted sequence leaves it as it is. */
  lemma {:induction false} SortOfSorted<T>(s: seq<T>, key: T -> int)
    requires SortedDesc(s, key)
    ensures SortDesc(s, key) == s
  {
    if s != [] {
      SortOfSorted(s[1..], key);
      assert s == [s[0]] + s[1..];
    }
  }

  /** Merges two sequences, taking from the first on equal keys. */
  function Merge<T>(a: seq<T>, b: seq<T>, key: T -> int): (r: seq<T>)
    ensures |r| == |a| + |b|
    decreases |a| + |b|
  {
    if a == [] then b
    else if b == [] then a
    else if key(a[0]) >= key(b[0]) then [a[0]] + Merge(a[1..], b, key)
    else [b[0]] + Merge(a, b[1..], key)
  }

  /** A merge holds every item of both inputs, and nothing else. */
  lemma {:induction false} MergeMultiset<T>(a: seq<T>, b: seq<T>, key: T -> int)
    ensures multiset(Merge(a, b, key)) == multiset(a) + multiset(b)
    decreases |a| + |b|
  {
    if a != [] && b != [] {
      if key(a[0]) >= key(b[0]) {
        MergeMultiset(a[1..], b, key);
        ConsMultiset(a[0], a[1..], a);
        ConsMultiset(a[0], Merge(a[1..], b, key), Merge(a, b, key));
      } else {
        MergeMultiset(a, b[1..], key);
        ConsMultiset(b[0], b[1..], b);
        ConsMultiset(b[0], Merge(a, b[1..], key), Merge(a, b, key));
      }
    }
  }

  lemma ConsMultiset<T>(x: T, t: seq<T>, s: seq<T>)
    requires s == [x] + t
    ensures multiset(s) == multiset{x} + multiset(t)
  {
  }

  /** Every item of `s` has a key of at most `k`. */
  predicate KeysAtMost<T>(s: seq<T>, key: T -> int, k: int) {
    forall i :: 0 <= i < |s| ==> key(s[i]) <= k
  }

  /** A bound on the keys of both inputs bounds the keys of their merge. */
  lemma {:induction false} MergeKeysAtMost<T>(a: seq<T>, b: seq<T>, key: T -> int, k: int)
    requires KeysAtMost(a, key, k) && KeysAtMost(b, key, k)
    ensures KeysAtMost(Merge(a, b, key), key, k)
    decreases |a| + |b|
  {
    if a != [] && b != [] {
      if key(a[0]) >= key(b[0]) {
        MergeKeysAtMost(a[1..], b, key, k);
      } else {
        MergeKeysAtMost(a, b[1..], key, k);
      }
    }
  }

  lemma ConsSorted<T>(x: T, t: seq<T>, key: T -> int)
    requires SortedDesc(t, key) && KeysAtMost(t, key, key(x))
    ensures SortedDesc([x] + t, key)
  {
  }

  lemma {:induction false} MergeSorted<T>(a: seq<T>, b: seq<T>, key: T -> int)
    requires SortedDesc(a, key) && SortedDesc(b, key)
    ensures SortedDesc(Merge(a, b, key), key)
    decreases |a| + |b|
  {
    if a != [] && b != [] {
      if key(a[0]) >= key(b[0]) {
        MergeSorted(a[1..], b, key);
        assert KeysAtMost(a[1..], key, key(a[0]));
        assert KeysAtMost(b, key, key(a[0]));
        MergeKeysAtMost(a[1..], b, key, key(a[0]));
        ConsSorted(a[0], Merge(a[1..], b, key), key);
      } else {
        MergeSorted(a, b[1..], key);
        assert KeysAtMost(a, key, key(b[0]));
        assert KeysAtMost(b[1..], key, key(b[0]));
        MergeKeysAtMost(a, b[1..], key, key(b[0]));
        ConsSorted(b[0], Merge(a, b[1..], key), key);
      }
    }
  }

  lemma KeyInjectiveSub<T>(s: seq<T>, t: seq<T>, key: T -> int)
    requires KeyInjective(s, key)
    requires multiset(t) <= multiset(s)
    ensures KeyInjective(t, key)
  {
    forall i, j | 0 <= i < |t| && 0 <= j < |t| && key(t[i]) == key(t[j])
      ensures t[i] == t[j]
    {
      assert t[i] in multiset(t) && t[j] in multiset(t);
      assert t[i] in s && t[j] in s;
    }
  }

  /**
   * Uniqueness of sorted order: two sorted arrangements of the same items
   * agree when no two distinct items share a key.
   */
  lemma {:induction false} SortedUnique<T>(s: seq<T>, t: seq<T>, key: T -> int)
    requires SortedDesc(s, key) && SortedDesc(t, key)
    requires multiset(s) == multiset(t)
    requires KeyInjective(s, key)
    ensures s == t
    decreases |s|, 1
  {
    if s == [] {
      assert |t| == |multiset(t)| == 0;
    } else {
      assert |t| == |multiset(t)| == |s|;
      assert s[0] in multiset(t) && t[0] in multiset(s);
      var j :| 0 <= j < |t| && t[j] == s[0];
      var i :| 0 <= i < |s| && s[i] == t[0];
      assert t[0] == s[0] by {
        assert key(t[0]) >= key(t[j]);
        assert key(s[0]) >= key(s[i]);
      }
      SortedUniqueTail(s, t, key);
    }
  }

  lemma SortedUniqueTail<T>(s: seq<T>, t: seq<T>, key: T -> int)
    requires SortedDesc(s, key) && SortedDesc(t, key)
    requires multiset(s) == multiset(t)
    requires KeyInjective(s, key)
    requires s != [] && t != [] && s[0] == t[0]
    ensures s == t
    decreases |s|, 0
  {
    assert s == [s[0]] + s[1..] && t == [t[0]] + t[1..];
    assert multiset(s) == multiset{s[0]} + multiset(s[1..]);
    assert multiset(t) == multiset{s[0]} + multiset(t[1..]);
    KeyInjectiveSub(s, s[1..], key);
    SortedUnique(s[1..], t[1..], key);
  }

  lemma TakeMultiset<T>(s: seq<T>, n: nat)
    ensures multiset(Take(s, n)) <= multiset(s)
  {
    if n <= |s| {
      assert s == s[..n] + s[n..];
    }
  }

  /** Sorting a concatenation is merging the sorted parts. */
  lemma SortConcat<T>(p: seq<T>, q: seq<T>, key: T -> int)
    requires KeyInjective(p + q, key)
    ensures SortDesc(p + q, key) == Merge(SortDesc(p, key), SortDesc(q, key), key)
  {
    var whole := SortDesc(p + q, key);
    var merged := Merge(SortDesc(p, key), SortDesc(q, key), key);
    MergeSorted(SortDesc(p, key), SortDesc(q, key), key);
    MergeMultiset(SortDesc(p, key), SortDesc(q, key), key);
    KeyInjectiveSub(p + q, whole, key);
    SortedUnique(whole, merged, key);
  }

  lemma TakeCons<T>(h: T, x: seq<T>, n: nat)
    requires n > 0
    ensures Take([h] + x, n) == [h] + Take(x, n - 1)
  {
    if n <= |x| + 1 {
      assert ([h] + x)[..n] == [h] + x[..n - 1];
    }
  }

  lemma TakeTake<T>(x: seq<T>, m: nat, n: nat)
    requires m <= n
    ensures Take(Take(x, n), m) == Take(x, m)
  {
  }

  lemma TakeTail<T>(x: seq<T>, n: nat)
    requires n > 0 && x != []
    ensures Take(x, n)[0] == x[0] && Take(x, n)[1..] == Take(x[1..], n - 1)
  {
  }

  /** The first n of a merge only ever draw on the first n of each input. */
  lemma {:induction false} TakeMerge<T>(a: seq<T>, b: seq<T>, n: nat, key: T -> int)
    ensures Take(Merge(a, b, key), n) == Take(Merge(Take(a, n), Take(b, n), key), n)
    decreases n, 1
  {
    if n == 0 || a == [] || b == [] {
      TakeMergeEmpty(a, b, n, key);
    } else if key(a[0]) >= key(b[0]) {
      TakeMergeFirstLeft(a, b, n, key);
    } else {
      TakeMergeFirstRight(a, b, n, key);
    }
  }

  lemma {:induction false} TakeMergeFirstLeft<T>(a: seq<T>, b: seq<T>, n: nat, key: T -> int)
    requires n > 0 && a != [] && b != [] && key(a[0]) >= key(b[0])
    ensures Take(Merge(a, b, key), n) == Take(Merge(Take(a, n), Take(b, n), key), n)
    decreases n, 0
  {
    var a1, tb := Take(a[1..], n - 1), Take(b, n);
    TakeMerge(a[1..], b, n - 1, key);
    TakeMerge(a1, tb, n - 1, key);
    assert Take(Merge(a1, tb, key), n - 1)
        == Take(Merge(Take(a1, n - 1), Take(tb, n - 1), key), n - 1);
    TakeMergeLeft(a, b, n, key);
  }

  lemma {:induction false} TakeMergeFirstRight<T>(a: seq<T>, b: seq<T>, n: nat, key: T -> int)
    requires n > 0 && a != [] && b != [] && key(a[0]) < key(b[0])
    ensures Take(Merge(a, b, key), n) == Take(Merge(Take(a, n), Take(b, n), key), n)
    decreases n, 0
  {
    var ta, b1 := Take(a, n), Take(b[1..], n - 1);
    TakeMerge(a, b[1..], n - 1, key);
    TakeMerge(ta, b1, n - 1, key);
    assert Take(Merge(ta, b1, key), n - 1)
        == Take(Merge(Take(ta, n - 1), Take(b1, n - 1), key), n - 1);
    TakeMergeRight(a, b, n, key);
  }

  lemma TakeMergeEmpty<T>(a: seq<T>, b: seq<T>, n: nat, key: T -> int)
    requires n == 0 || a == [] || b == []
    ensures Take(Merge(a, b, key), n) == Take(Merge(Take(a, n), Take(b, n), key), n)
  {
    if n == 0 {
    } else if a == [] {
      TakeTake(b, n, n);
    } else {
      TakeTake(a, n, n);
    }
  }

  lemma TakeMergeLeft<T>(a: seq<T>, b: seq<T>, n: nat, key: T -> int)
    requires n > 0 && a != [] && b != [] && key(a[0]) >= key(b[0])
    requires Take(Merge(a[1..], b, key), n - 1)
          == Take(Merge(Take(a[1..], n - 1), Take(b, n - 1), key), n - 1)
    requires Take(Merge(Take(a[1..], n - 1), Take(b, n), key), n - 1)
          == Take(Merge(Take(Take(a[1..], n - 1), n - 1), Take(Take(b, n), n - 1), key), n - 1)
    ensures Take(Merge(a, b, key), n) == Take(Merge(Take(a, n), Take(b, n), key), n)
  {
    var a1, tb := Take(a[1..], n - 1), Take(b, n);
    TakeMergeStep(a, b, n, key);
    TakeTake(a[1..], n - 1, n - 1);
    TakeTake(b, n - 1, n);
    assert Take(a1, n - 1) == a1 && Take(tb, n - 1) == Take(b, n - 1);
    assert Take(Merge(a[1..], b, key), n - 1) == Take(Merge(a1, tb, key), n - 1);
  }

  lemma TakeMergeRight<T>(a: seq<T>, b: seq<T>, n: nat, key: T -> int)
    requires n > 0 && a != [] && b != [] && key(a[0]) < key(b[0])
    requires Take(Merge(a, b[1..], key), n - 1)
          == Take(Merge(Take(a, n - 1), Take(b[1..], n - 1), key), n - 1)
    requires Take(Merge(Take(a, n), Take(b[1..], n - 1), key), n - 1)
          == Take(Merge(Take(Take(a, n), n - 1), Take(Take(b[1..], n - 1), n - 1), key), n - 1)
    ensures Take(Merge(a, b, key), n) == Take(Merge(Take(a, n), Take(b, n), key), n)
  {
    var ta, b1 := Take(a, n), Take(b[1..], n - 1);
    TakeMergeStepRight(a, b, n, key);
    TakeTake(b[1..], n - 1, n - 1);
    TakeTake(a, n - 1, n);
    assert Take(b1, n - 1) == b1 && Take(ta, n - 1) == Take(a, n - 1);
    assert Take(Merge(a, b[1..], key), n - 1) == Take(Merge(ta, b1, key), n - 1);
  }

  lemma TakeMergeStep<T>(a: seq<T>, b: seq<T>, n: nat, key: T -> int)
    requires n > 0 && a != [] && b != [] && key(a[0]) >= key(b[0])
    ensures Take(Merge(a, b, key), n) == [a[0]] + Take(Merge(a[1..], b, key), n - 1)
    ensures Take(Merge(Take(a, n), Take(b, n), key), n)
         == [a[0]] + Take(Merge(Take(a[1..], n - 1), Take(b, n), key), n - 1)
  {
    TakeCons(a[0], Merge(a[1..], b, key), n);
    TakeTail(a, n);
    TakeTail(b, n);
    TakeCons(a[0], Merge(Take(a[1..], n - 1), Take(b, n), key), n);
  }

  lemma TakeMergeStepRight<T>(a: seq<T>, b: seq<T>, n: nat, key: T -> int)
    requires n > 0 && a != [] && b != [] && key(a[0]) < key(b[0])
    ensures Take(Merge(a, b, key), n) == [b[0]] + Take(Merge(a, b[1..], key), n - 1)
    ensures Take(Merge(Take(a, n), Take(b, n), key), n)
         == [b[0]] + Take(Merge(Take(a, n), Take(b[1..], n - 1), key), n - 1)
  {
    TakeCons(b[0], Merge(a, b[1..], key), n);
    TakeTail(a, n);
    TakeTail(b, n);
    TakeCons(b[0], Merge(Take(a, n), Take(b[1..], n - 1), key), n);
  }

  lemma TakeSorted<T>(s: seq<T>, n: nat, key: T -> int)
    requires SortedDesc(s, key)
    ensures SortedDesc(Take(s, n), key)
  {
  }

  /**
   * Two sources, each sorted and cut to n before being merged, sorted and cut
   * to n again, give exactly the first n of the sorted union.
   */
  lemma PreLimitedMerge2<T>(a: seq<T>, b: seq<T>, n: nat, key: T -> int)
    requires KeyInjective(a + b, key)
    ensures Take(SortDesc(Take(SortDesc(a, key), n) + Take(SortDesc(b, key), n), key), n)
         == Take(SortDesc(a + b, key), n)
  {
    var sa, sb := SortDesc(a, key), SortDesc(b, key);
    var ta, tb := Take(sa, n), Take(sb, n);
    SortConcat(a, b, key);
    TakeMultiset(sa, n);
    TakeMultiset(sb, n);
    KeyInjectiveSub(a + b, ta + tb, key);
    SortConcat(ta, tb, key);
    TakeSorted(sa, n, key);
    TakeSorted(sb, n, key);
    SortOfSorted(ta, key);
    SortOfSorted(tb, key);
    TakeMerge(sa, sb, n, key);
  }

  /** Sorting a three-part concatenation is merging the sorted parts. */
  lemma SortConcat3<T>(a: seq<T>, b: seq<T>, c: seq<T>, key: T -> int)
    requires KeyInjective(a + b + c, key)
    ensures SortDesc(a + b + c, key)
         == Merge(Merge(SortDesc(a, key), SortDesc(b, key), key), SortDesc(c, key), key)
  {
    KeyInjectiveSub(a + b + c, a + b, key);
    SortConcat(a + b, c, key);
    SortConcat(a, b, key);
  }

  lemma TakeMerge3<T>(a: seq<T>, b: seq<T>, c: seq<T>, n: nat, key: T -> int)
    ensures Take(Merge(Merge(a, b, key), c, key), n)
         == Take(Merge(Merge(Take(a, n), Take(b, n), key), Take(c, n), key), n)
  {
    var ta, tb, tc := Take(a, n), Take(b, n), Take(c, n);
    TakeMerge(Merge(a, b, key), c, n, key);
    TakeMerge(a, b, n, key);
    TakeMerge(Merge(ta, tb, key), tc, n, key);
    TakeTake(c, n, n);
  }

  /** The same for three sources, as the per-author activity feed merges. */
  lemma PreLimitedMerge3<T>(a: seq<T>, b: seq<T>, c: seq<T>, n: nat, key: T -> int)
    requires KeyInjective(a + b + c, key)
    ensures Take(SortDesc(Take(SortDesc(a, key), n) + Take(SortDesc(b, key), n) + Take(SortDesc(c, key), n), key), n)
         == Take(SortDesc(a + b + c, key), n)
  {
    var sa, sb, sc := SortDesc(a, key), SortDesc(b, key), SortDesc(c, key);
    var ta, tb, tc := Take(sa, n), Take(sb, n), Take(sc, n);
    SortConcat3(a, b, c, key);
    TakeMultiset(sa, n);
    TakeMultiset(sb, n);
    TakeMultiset(sc, n);
    assert multiset(ta + tb + tc) <= multiset(a + b + c);
    KeyInjectiveSub(a + b + c, ta + tb + tc, key);
    SortConcat3(ta, tb, tc, key);
    TakeSorted(sa, n, key);
    TakeSorted(sb, n, key);
    TakeSorted(sc, n, key);
    SortOfSorted(ta, key);
    SortOfSorted(tb, key);
    SortOfSorted(tc, key);
    TakeMerge3(sa, sb, sc, n, key);
  }

  lemma {:induction false} InsertMap<T, U>(x: T, s: seq<T>, f: T -> U, k1: T -> int, k2: U -> int)
    requires forall y :: k2(f(y)) == k1(y)
    ensures Insert(f(x), MapSeq(s, f), k2) == MapSeq(Insert(x, s, k1), f)
  {
    var m := MapSeq(s, f);
    if s == [] || k1(s[0]) <= k1(x) {
      assert m == [] || k2(m[0]) <= k2(f(x));
      MapCons(x, s, f);
    } else {
      assert k2(m[0]) > k2(f(x));
      assert m[1..] == MapSeq(s[1..], f);
      InsertMap(x, s[1..], f, k1, k2);
      MapCons(s[0], Insert(x, s[1..], k1), f);
    }
  }

  /**
   * Mapping a key-preserving function commutes with sorting: annotating
   * items before or after the sort gives the same sequence.
   */
  lemma {:induction false} SortMap<T, U>(s: seq<T>, f: T -> U, k1: T -> int, k2: U -> int)
    requires forall y :: k2(f(y)) == k1(y)
    ensures SortDesc(MapSeq(s, f), k2) == MapSeq(SortDesc(s, k1), f)
  {
    if s != [] {
      SortMap(s[1..], f, k1, k2);
      assert MapSeq(s, f)[1..] == MapSeq(s[1..], f);
      InsertMap(s[0], SortDesc(s[1..], k1), f, k1, k2);
    }
  }

  lemma TakeMap<T, U>(s: seq<T>, f: T -> U, n: nat)
    ensures Take(MapSeq(s, f), n) == MapSeq(Take(s, n), f)
  {
  }
}
