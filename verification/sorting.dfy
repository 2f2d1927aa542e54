/**
 * Ordering of query results (Prisma's `orderBy`): an insertion sort by a total
 * "may come before" relation, and the `skip`/`take` window.
 */
module Sorting {

  /** Any two elements can be put in some order. */
  ghost predicate Total<T(!new)>(before: (T, T) -> bool) {
    forall a, b :: before(a, b) || before(b, a)
  }

  ghost predicate Transitive<T(!new)>(before: (T, T) -> bool) {
    forall a, b, c :: before(a, b) && before(b, c) ==> before(a, c)
  }

  /** Each element may come before its successor. */
  predicate SortedBy<T>(s: seq<T>, before: (T, T) -> bool) {
    forall i :: 0 <= i < |s| - 1 ==> before(s[i], s[i + 1])
  }

  function Insert<T(!new)>(x: T, s: seq<T>, before: (T, T) -> bool): (r: seq<T>)
    requires Total(before)
    requires SortedBy(s, before)
    ensures SortedBy(r, before)
    ensures multiset(r) == multiset(s) + multiset{x}
    ensures |r| == |s| + 1
    ensures r[0] == x || (|s| > 0 && r[0] == s[0])
  {
    if |s| == 0 then [x]
    else if before(x, s[0]) then [x] + s
    else
      var rest := Insert(x, s[1..], before);
      assert s == [s[0]] + s[1..];
      [s[0]] + rest
  }

  /** The elements of `s` in an order in which each may come before the next. */
  function SortBy<T(!new)>(s: seq<T>, before: (T, T) -> bool): (r: seq<T>)
    requires Total(before)
    ensures SortedBy(r, before)
    ensures multiset(r) == multiset(s)
    ensures |r| == |s|
  {
    if |s| == 0 then []
    else
      assert s == [s[0]] + s[1..];
      Insert(s[0], SortBy(s[1..], before), before)
  }

  /** For a transitive relation, every earlier element may come before every later one. */
  lemma {:induction false} SortedAllPairs<T(!new)>(s: seq<T>, before: (T, T) -> bool, i: int, j: int)
    requires Transitive(before) && SortedBy(s, before)
    requires 0 <= i < j < |s|
    ensures before(s[i], s[j])
    decreases j - i
  {
    if j > i + 1 {
      SortedAllPairs(s, before, i, j - 1);
    }
  }

  /** A contiguous slice of a sorted sequence is sorted. */
  lemma SliceSorted<T>(s: seq<T>, before: (T, T) -> bool, lo: int, hi: int)
    requires SortedBy(s, before) && 0 <= lo <= hi <= |s|
    ensures SortedBy(s[lo..hi], before)
  {
    forall i | 0 <= i < hi - lo - 1 ensures before(s[lo..hi][i], s[lo..hi][i + 1]) {
      assert s[lo..hi][i] == s[lo + i] && s[lo..hi][i + 1] == s[lo + i + 1];
    }
  }

  /** The first `n` elements after skipping `k` (`skip`/`take`), cut short at the end. */
  function Window<T>(s: seq<T>, k: int, n: int): (r: seq<T>)
    requires k >= 0 && n >= 0
    ensures |r| <= n
    ensures |r| == if k >= |s| then 0 else if n < |s| - k then n else |s| - k
    ensures forall i :: 0 <= i < |r| ==> r[i] == s[k + i]
    ensures |r| > 0 ==> k + |r| <= |s| && r == s[k .. k + |r|]
  {
    var start := if k < |s| then k else |s|;
    var stop := if n < |s| - start then start + n else |s|;
    s[start..stop]
  }

  /** A window of a sorted sequence is sorted. */
  lemma WindowSorted<T>(s: seq<T>, before: (T, T) -> bool, k: int, n: int)
    requires k >= 0 && n >= 0 && SortedBy(s, before)
    ensures SortedBy(Window(s, k, n), before)
  {
    var start := if k < |s| then k else |s|;
    var stop := if n < |s| - start then start + n else |s|;
    SliceSorted(s, before, start, stop);
  }

  /** A window holds each element at most as often as the whole sequence does. */
  lemma WindowMultiset<T>(s: seq<T>, k: int, n: int)
    requires k >= 0 && n >= 0
    ensures multiset(Window(s, k, n)) <= multiset(s)
  {
    var start := if k < |s| then k else |s|;
    var stop := if n < |s| - start then start + n else |s|;
    assert s == s[..start] + s[start..stop] + s[stop..];
  }

  /** Two adjacent windows together are the window that spans both (consecutive pages). */
  lemma {:induction false} WindowsAdjoin<T>(s: seq<T>, k: int, n: int, m: int)
    requires k >= 0 && n >= 0 && m >= 0
    ensures Window(s, k, n) + Window(s, k + n, m) == Window(s, k, n + m)
  {
    var a, b, c := Window(s, k, n), Window(s, k + n, m), Window(s, k, n + m);
    assert |a + b| == |c|;
    forall i | 0 <= i < |c| ensures (a + b)[i] == c[i] {
      if i < |a| {
        assert (a + b)[i] == s[k + i];
      } else {
        assert (a + b)[i] == b[i - |a|] == s[k + i];
      }
    }
  }

  /** The elements `keep` accepts, in their original order (a `where` clause). */
  function Filter<T(!new)>(s: seq<T>, keep: T -> bool): (r: seq<T>)
    ensures |r| <= |s|
    ensures forall x :: x in r <==> x in s && keep(x)
    ensures multiset(r) <= multiset(s)
  {
    if |s| == 0 then []
    else
      var rest := Filter(s[1..], keep);
      assert s == [s[0]] + s[1..];
      if keep(s[0]) then [s[0]] + rest else rest
  }

  /** Filtering a non-empty list: its first element is kept or not, then the rest is filtered. */
  lemma FilterHead<T(!new)>(s: seq<T>, keep: T -> bool)
    requires |s| > 0
    ensures Filter(s, keep) == (if keep(s[0]) then [s[0]] else []) + Filter(s[1..], keep)
  {
  }

  /** Filtering a list with one more element at the end: that element is kept or not, nothing else changes. */
  lemma {:induction false} FilterAppend<T(!new)>(s: seq<T>, x: T, keep: T -> bool)
    ensures Filter(s + [x], keep) == Filter(s, keep) + (if keep(x) then [x] else [])
    decreases |s|
  {
    if |s| == 0 {
      assert (s + [x])[1..] == [];
      FilterHead(s + [x], keep);
    } else {
      FilterAppend(s[1..], x, keep);
      FilterAppendStep(s, x, keep);
    }
  }

  /** The inductive step of `FilterAppend`: from the tail to the whole list. */
  lemma FilterAppendStep<T(!new)>(s: seq<T>, x: T, keep: T -> bool)
    requires |s| > 0
    requires Filter(s[1..] + [x], keep) == Filter(s[1..], keep) + (if keep(x) then [x] else [])
    ensures Filter(s + [x], keep) == Filter(s, keep) + (if keep(x) then [x] else [])
  {
    var t := s + [x];
    var head, rest, last := if keep(s[0]) then [s[0]] else [], Filter(s[1..], keep), if keep(x) then [x] else [];
    SnocTail(s, x);
    FilterHead(t, keep);
    FilterHead(s, keep);
    ConcatAssoc(head, rest, last);
  }

  lemma SnocTail<T>(s: seq<T>, x: T)
    requires |s| > 0
    ensures (s + [x])[0] == s[0] && (s + [x])[1..] == s[1..] + [x]
  {
  }

  lemma ConcatAssoc<T>(a: seq<T>, b: seq<T>, c: seq<T>)
    ensures a + (b + c) == (a + b) + c
  {
  }

  /** When every element passes, filtering changes nothing. */
  lemma {:induction false} FilterKeepsEvery<T(!new)>(s: seq<T>, keep: T -> bool)
    requires forall i :: 0 <= i < |s| ==> keep(s[i])
    ensures Filter(s, keep) == s
    decreases |s|
  {
    if |s| > 0 {
      assert forall i :: 0 <= i < |s| - 1 ==> s[1..][i] == s[i + 1];
      FilterKeepsEvery(s[1..], keep);
    }
  }

  /** The filter keeps every element exactly when every element passes. */
  lemma {:induction false} FilterKeepsAll<T(!new)>(s: seq<T>, keep: T -> bool)
    ensures |Filter(s, keep)| == |s| <==> forall i :: 0 <= i < |s| ==> keep(s[i])
    decreases |s|
  {
    if |s| > 0 {
      FilterKeepsAll(s[1..], keep);
      assert forall i :: 1 <= i < |s| ==> s[i] == s[1..][i - 1];
      if forall i :: 1 <= i < |s| ==> keep(s[i]) {
        assert forall i :: 0 <= i < |s| - 1 ==> keep(s[1..][i]);
      }
    }
  }

  /** Nothing is kept exactly when no element is accepted. */
  lemma FilterKeepsNone<T(!new)>(s: seq<T>, keep: T -> bool)
    ensures |Filter(s, keep)| == 0 <==> forall i :: 0 <= i < |s| ==> !keep(s[i])
  {
    var r := Filter(s, keep);
    if |r| > 0 {
      assert r[0] in r;
    }
  }
}
