/** Sequence helpers standing for the JavaScript array operations the backend uses. */
module Seqs {

  predicate NoDuplicates<T(==)>(s: seq<T>) {
    forall i, j :: 0 <= i < j < |s| ==> s[i] != s[j]
  }

  /** The index of the first occurrence of `x` in `s`, or `|s|` when it does not occur. */
  function FirstIndex<T(==)>(s: seq<T>, x: T): (i: nat)
    ensures i <= |s|
    ensures i < |s| <==> x in s
    ensures i < |s| ==> s[i] == x
    ensures forall j :: 0 <= j < i ==> s[j] != x
  {
    if s == [] then 0
    else if s[0] == x then 0
    else 1 + FirstIndex(s[1..], x)
  }

  /** A value that occurs in a prefix first occurs at the same place in the whole. */
  lemma FirstIndexPrefix<T>(s: seq<T>, n: nat, x: T)
    requires n <= |s| && x in s[..n]
    ensures FirstIndex(s, x) == FirstIndex(s[..n], x)
  {
    var a := FirstIndex(s[..n], x);
    assert s[a] == x;
  }

  /**
   * Appending the last item of `s` to a list ordered by first occurrence in
   * the rest of `s` keeps it ordered by first occurrence in `s`.
   */
  lemma FirstOrderAppend<T>(s: seq<T>, r: seq<T>)
    requires s != []
    requires forall i :: 0 <= i < |r| ==> r[i] in s[..|s| - 1]
    requires forall i, j :: 0 <= i < j < |r| ==> FirstIndex(s[..|s| - 1], r[i]) < FirstIndex(s[..|s| - 1], r[j])
    ensures forall i, j :: 0 <= i < j < |r| ==> FirstIndex(s, r[i]) < FirstIndex(s, r[j])
    ensures s[|s| - 1] !in s[..|s| - 1] ==> forall i :: 0 <= i < |r| ==> FirstIndex(s, r[i]) < FirstIndex(s, s[|s| - 1])
  {
    var n := |s| - 1;
    forall i | 0 <= i < |r|
      ensures FirstIndex(s, r[i]) == FirstIndex(s[..n], r[i]) < n
    {
      FirstIndexPrefix(s, n, r[i]);
    }
  }

  /** The order clause of Dedupe for one more item, given it for the items before. */
  lemma DedupeOrderStep<T>(s: seq<T>, r: seq<T>)
    requires s != []
    requires forall i :: 0 <= i < |r| ==> r[i] in s[..|s| - 1]
    requires forall k :: 0 <= k < |s| - 1 ==> s[k] in r
    requires forall i, j :: 0 <= i < j < |r| ==> FirstIndex(s[..|s| - 1], r[i]) < FirstIndex(s[..|s| - 1], r[j])
    ensures var d := if s[|s| - 1] in r then r else r + [s[|s| - 1]];
            forall i, j :: 0 <= i < j < |d| ==> FirstIndex(s, d[i]) < FirstIndex(s, d[j])
  {
    var n := |s| - 1;
    FirstOrderAppend(s, r);
    if s[n] !in r {
      assert s[n] !in s[..n];
      var d := r + [s[n]];
      forall i, j | 0 <= i < j < |d|
        ensures FirstIndex(s, d[i]) < FirstIndex(s, d[j])
      {
        if j < |r| {
          assert d[i] == r[i] && d[j] == r[j];
        } else {
          assert d[i] == r[i] && d[j] == s[n];
        }
      }
    }
  }

  /**
   * `[...new Set(s)]`: every value once, in the order of its first
   * occurrence in `s`.
   */
  function Dedupe<T(==)>(s: seq<T>): (r: seq<T>)
    ensures forall i :: 0 <= i < |r| ==> r[i] in s
    ensures forall i :: 0 <= i < |s| ==> s[i] in r
    ensures NoDuplicates(r)
    ensures |r| <= |s|
  {
    if s == [] then []
    else
      var r := Dedupe(s[..|s| - 1]);
      if s[|s| - 1] in r then r else r + [s[|s| - 1]]
  }

  /** Dedupe lists the values by the place of their first occurrence. */
  lemma {:induction false} DedupeFirstOrder<T>(s: seq<T>)
    ensures forall i, j :: 0 <= i < j < |Dedupe(s)| ==> FirstIndex(s, Dedupe(s)[i]) < FirstIndex(s, Dedupe(s)[j])
  {
    if s != [] {
      var prefix := s[..|s| - 1];
      var r := Dedupe(prefix);
      DedupeFirstOrder(prefix);
      DedupeOrderStep(s, r);
      assert Dedupe(s) == if s[|s| - 1] in r then r else r + [s[|s| - 1]];
    }
  }

  /** `s.slice(0, n)` for a non-negative `n`. */
  function Take<T>(s: seq<T>, n: nat): seq<T> {
    if n <= |s| then s[..n] else s
  }

  /**
   * `s.slice(start, end)` with JavaScript's handling of negative and
   * out-of-range bounds: a negative bound counts from the end, then both are
   * clamped into `[0, |s|]`, and an empty slice results when start >= end.
   */
  function JsSlice<T>(s: seq<T>, start: int, end: int): seq<T> {
    var from := if start < 0 then (if |s| + start < 0 then 0 else |s| + start)
                else (if start > |s| then |s| else start);
    var to := if end < 0 then (if |s| + end < 0 then 0 else |s| + end)
              else (if end > |s| then |s| else end);
    if from < to then s[from..to] else []
  }

  /** For non-negative bounds a JavaScript slice is the clamped Dafny slice. */
  lemma JsSliceNonNegative<T>(s: seq<T>, start: nat, end: nat)
    ensures start <= |s| && start <= end ==> JsSlice(s, start, end) == s[start..if end <= |s| then end else |s|]
    ensures start >= |s| || end <= start ==> JsSlice(s, start, end) == []
  {
  }

  /** `s.filter(keep)`: the items that pass, in their original order. */
  function Filter<T>(s: seq<T>, keep: T -> bool): (r: seq<T>)
    ensures |r| <= |s|
  {
    if s == [] then []
    else (if keep(s[0]) then [s[0]] else []) + Filter(s[1..], keep)
  }

  /** The filtered items are items of the input that pass, and they are all of them. */
  lemma {:induction false} FilterFacts<T>(s: seq<T>, keep: T -> bool)
    ensures forall i :: 0 <= i < |Filter(s, keep)| ==> Filter(s, keep)[i] in s && keep(Filter(s, keep)[i])
    ensures forall i :: 0 <= i < |s| && keep(s[i]) ==> s[i] in Filter(s, keep)
    ensures multiset(Filter(s, keep)) <= multiset(s)
  {
    if s != [] {
      FilterFacts(s[1..], keep);
      assert s == [s[0]] + s[1..];
      forall i | 0 <= i < |s| && keep(s[i])
        ensures s[i] in Filter(s, keep)
      {
        if i > 0 {
          assert s[i] == s[1..][i - 1];
        }
      }
    }
  }

  /** Every item that passes is kept. */
  lemma FilterKeeps<T>(s: seq<T>, keep: T -> bool, x: T)
    requires x in s && keep(x)
    ensures x in Filter(s, keep)
  {
    FilterFacts(s, keep);
  }

  /** A kept item is an item of the input that passes. */
  lemma FilterMember<T>(s: seq<T>, keep: T -> bool, x: T)
    requires x in Filter(s, keep)
    ensures x in s && keep(x)
  {
    FilterFacts(s, keep);
  }

  lemma DedupeKeeps<T>(s: seq<T>, x: T)
    requires x in s
    ensures x in Dedupe(s)
  {
    var k :| 0 <= k < |s| && s[k] == x;
  }

  lemma {:induction false} FilterConcat<T>(s: seq<T>, t: seq<T>, keep: T -> bool)
    ensures Filter(s + t, keep) == Filter(s, keep) + Filter(t, keep)
  {
    if s != [] {
      assert (s + t)[1..] == s[1..] + t;
      FilterConcat(s[1..], t, keep);
    } else {
      assert s + t == t;
    }
  }

  /** The number of items that pass `keep`. */
  function Count<T>(s: seq<T>, keep: T -> bool): (n: nat)
    ensures n <= |s|
  {
    |Filter(s, keep)|
  }

  /** Counting around one position: the items before it, the item itself, the items after it. */
  lemma CountSplit<T>(s: seq<T>, i: nat, keep: T -> bool)
    requires i < |s|
    ensures Count(s, keep) == Count(s[..i], keep) + (if keep(s[i]) then 1 else 0) + Count(s[i + 1..], keep)
  {
    assert s == s[..i] + ([s[i]] + s[i + 1..]);
    FilterConcat(s[..i], [s[i]] + s[i + 1..], keep);
    FilterConcat([s[i]], s[i + 1..], keep);
  }

  /** `s.map(f)` */
  function MapSeq<T, U>(s: seq<T>, f: T -> U): (r: seq<U>)
    ensures |r| == |s|
    ensures forall i :: 0 <= i < |s| ==> r[i] == f(s[i])
  {
    seq(|s|, i requires 0 <= i < |s| => f(s[i]))
  }

  lemma MapKeeps<T, U>(s: seq<T>, f: T -> U, x: T)
    requires x in s
    ensures f(x) in MapSeq(s, f)
  {
    var k :| 0 <= k < |s| && s[k] == x;
    assert MapSeq(s, f)[k] == f(x);
  }

  /** Mapping by `f` and then by a left inverse of `f` gives back the input. */
  lemma MapInverse<T, U>(s: seq<T>, f: T -> U, g: U -> T)
    requires forall y :: g(f(y)) == y
    ensures MapSeq(MapSeq(s, f), g) == s
  {
  }

  lemma MapConcat<T, U>(x: seq<T>, y: seq<T>, f: T -> U)
    ensures MapSeq(x + y, f) == MapSeq(x, f) + MapSeq(y, f)
  {
  }

  lemma MapCons<T, U>(h: T, x: seq<T>, f: T -> U)
    ensures MapSeq([h] + x, f) == [f(h)] + MapSeq(x, f)
  {
  }
}
