/**
 * Sequence operations that stand for the query-set primitives the blog uses:
 * `filter` (order-preserving selection), `get` (first row matching a lookup)
 * and the page split done by the paginator.
 */
module Seqs {
  import opened Wrappers

  /** `a` is obtained from `b` by deleting elements: same elements, same relative order. */
  ghost predicate IsSubsequence<T>(a: seq<T>, b: seq<T>)
    decreases |b|
  {
    a == [] || (b != [] && ((a[0] == b[0] && IsSubsequence(a[1..], b[1..])) || IsSubsequence(a, b[1..])))
  }

  /** Keeps the elements of `s` satisfying `keep`, in their original order. */
  function Filter<T(!new)>(s: seq<T>, keep: T -> bool): (r: seq<T>)
    ensures |r| <= |s|
    ensures forall x :: x in r <==> x in s && keep(x)
    ensures IsSubsequence(r, s)
    decreases |s|
  {
    if s == [] then []
    else if keep(s[0]) then [s[0]] + Filter(s[1..], keep)
    else Filter(s[1..], keep)
  }

  /** Filtering with the same condition a second time removes nothing more. */
  lemma {:induction false} FilterIdempotent<T(!new)>(s: seq<T>, keep: T -> bool)
    ensures Filter(Filter(s, keep), keep) == Filter(s, keep)
    decreases |s|
  {
    if s != [] {
      FilterIdempotent(s[1..], keep);
      if keep(s[0]) {
        var r := Filter(s, keep);
        assert r[0] == s[0] && r[1..] == Filter(s[1..], keep);
      }
    }
  }

  /** Filtering a sequence extended at the end filters the old part and the new element separately. */
  lemma {:induction false} FilterAppend<T(!new)>(s: seq<T>, x: T, keep: T -> bool)
    ensures Filter(s + [x], keep) == Filter(s, keep) + (if keep(x) then [x] else [])
    decreases |s|
  {
    if s == [] {
      assert [] + [x] == [x];
      assert Filter([x], keep) == (if keep(x) then [x] else []) + Filter([], keep);
    } else {
      assert (s + [x])[0] == s[0];
      assert (s + [x])[1..] == s[1..] + [x];
      FilterAppend(s[1..], x, keep);
    }
  }

  /** Filtering keeps every occurrence of a kept element and none of the others. */
  lemma {:induction false} FilterMultiset<T(!new)>(s: seq<T>, keep: T -> bool)
    ensures forall x :: multiset(Filter(s, keep))[x] == if keep(x) then multiset(s)[x] else 0
    decreases |s|
  {
    if s != [] {
      FilterMultiset(s[1..], keep);
      assert s == [s[0]] + s[1..];
    }
  }

  /** The first element of `s` for which `matches` holds, if any. */
  function FindFirst<T(!new)>(s: seq<T>, matches: T -> bool): (r: Option<T>)
    ensures r.Some? ==> r.value in s && matches(r.value)
    ensures r.None? <==> forall x :: x in s ==> !matches(x)
    decreases |s|
  {
    if s == [] then None
    else if matches(s[0]) then Some(s[0])
    else FindFirst(s[1..], matches)
  }

  /**
   * Looking up in a filtered sequence finds the same element as looking up in
   * the whole sequence, provided the filter keeps that element.
   */
  lemma {:induction false} FindFirstInFilter<T(!new)>(s: seq<T>, matches: T -> bool, keep: T -> bool)
    requires FindFirst(s, matches).Some? && keep(FindFirst(s, matches).value)
    ensures FindFirst(Filter(s, keep), matches) == FindFirst(s, matches)
    decreases |s|
  {
    if !matches(s[0]) {
      FindFirstInFilter(s[1..], matches, keep);
    }
  }

  /** A key strictly above the key of every element of `s` (and at least 1). */
  function FreshKey<T(!new)>(s: seq<T>, key: T -> int): (k: int)
    ensures k >= 1
    ensures forall x :: x in s ==> key(x) < k
    decreases |s|
  {
    if s == [] then 1
    else
      var rest := FreshKey(s[1..], key);
      if key(s[0]) < rest then rest else key(s[0]) + 1
  }

  function Flatten<T>(pages: seq<seq<T>>): seq<T>
    decreases |pages|
  {
    if pages == [] then [] else pages[0] + Flatten(pages[1..])
  }

  /**
   * Splits `s` into pages of `n` elements; only the last page may be shorter.
   * An empty `s` gives one empty page.
   */
  function Chunks<T>(s: seq<T>, n: nat): (pages: seq<seq<T>>)
    requires n > 0
    ensures |pages| >= 1
    ensures Flatten(pages) == s
    ensures forall k :: 0 <= k < |pages| ==> |pages[k]| <= n
    ensures forall k :: 0 <= k < |pages| - 1 ==> |pages[k]| == n
    ensures s != [] ==> forall k :: 0 <= k < |pages| ==> pages[k] != []
    decreases |s|
  {
    if |s| <= n then
      assert Flatten([s]) == s + Flatten([]);
      [s]
    else
      var rest := Chunks(s[n..], n);
      var pages := [s[..n]] + rest;
      assert pages[1..] == rest;
      assert s == s[..n] + s[n..];
      pages
  }
}
