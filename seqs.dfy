/**
 * Sequence helpers: order-preserving filtering (Kotlin `filter`, Swift
 * `filter`, SQL `WHERE`) and a stable sort by a key in descending order
 * (SQL `ORDER BY key DESC` over the rows in their stored order).
 */
module Seqs {

  function Filter<T>(s: seq<T>, p: T -> bool): (r: seq<T>)
    ensures |r| <= |s|
  {
    if s == [] then []
    else (if p(s[0]) then [s[0]] else []) + Filter(s[1..], p)
  }

  /** The filter keeps exactly the elements that satisfy `p`. */
  lemma {:induction false} FilterMembers<T>(s: seq<T>, p: T -> bool)
    ensures forall i :: 0 <= i < |Filter(s, p)| ==> Filter(s, p)[i] in s && p(Filter(s, p)[i])
    ensures forall i :: 0 <= i < |s| ==> (s[i] in Filter(s, p) <==> p(s[i]))
  {
    if s != [] {
      FilterMembers(s[1..], p);
      assert s == [s[0]] + s[1..];
    }
  }

  /** Filtering keeps the relative order: it distributes over concatenation. */
  lemma {:induction false} FilterAppend<T>(a: seq<T>, b: seq<T>, p: T -> bool)
    ensures Filter(a + b, p) == Filter(a, p) + Filter(b, p)
  {
    if a == [] {
      assert a + b == b;
    } else {
      var head := if p(a[0]) then [a[0]] else [];
      assert (a + b)[0] == a[0] && (a + b)[1..] == a[1..] + b;
      assert Filter(a + b, p) == head + Filter(a[1..] + b, p);
      FilterAppend(a[1..], b, p);
      assert Filter(a, p) == head + Filter(a[1..], p);
      assert head + (Filter(a[1..], p) + Filter(b, p)) == (head + Filter(a[1..], p)) + Filter(b, p);
    }
  }

  /** A filter that keeps every element is the identity. */
  lemma {:induction false} FilterKeepsAll<T>(s: seq<T>, p: T -> bool)
    requires forall i :: 0 <= i < |s| ==> p(s[i])
    ensures Filter(s, p) == s
  {
    if s != [] {
      FilterKeepsAll(s[1..], p);
    }
  }

  ghost predicate SortedDesc<T>(s: seq<T>, key: T -> int)
  {
    forall i, j :: 0 <= i < j < |s| ==> key(s[i]) >= key(s[j])
  }

  /** Puts `x` in front of the first element whose key is not larger than its own. */
  function InsertDesc<T>(x: T, s: seq<T>, key: T -> int): (r: seq<T>)
    ensures |r| == |s| + 1
    ensures multiset(r) == multiset(s) + multiset{x}
  {
    if s == [] || key(x) >= key(s[0]) then [x] + s
    else
      assert s == [s[0]] + s[1..];
      [s[0]] + InsertDesc(x, s[1..], key)
  }

  /** A bound on the keys of `x` and of `s` bounds every key after the insertion. */
  lemma {:induction false} InsertDescBound<T>(x: T, s: seq<T>, key: T -> int, b: int)
    requires b >= key(x)
    requires forall j :: 0 <= j < |s| ==> b >= key(s[j])
    ensures forall k :: 0 <= k < |s| + 1 ==> b >= key(InsertDesc(x, s, key)[k])
  {
    if s != [] && key(x) < key(s[0]) {
      InsertDescBound(x, s[1..], key, b);
    }
  }

  lemma {:induction false} InsertDescSorted<T>(x: T, s: seq<T>, key: T -> int)
    requires SortedDesc(s, key)
    ensures SortedDesc(InsertDesc(x, s, key), key)
  {
    if s != [] && key(x) < key(s[0]) {
      InsertDescSorted(x, s[1..], key);
      InsertDescBound(x, s[1..], key, key(s[0]));
    }
  }

  /** Stable descending sort: among equal keys the stored order is kept. */
  function SortDesc<T>(s: seq<T>, key: T -> int): (r: seq<T>)
    ensures |r| == |s|
    ensures multiset(r) == multiset(s)
    ensures SortedDesc(r, key)
  {
    if s == [] then []
    else
      assert s == [s[0]] + s[1..];
      var rest := SortDesc(s[1..], key);
      InsertDescSorted(s[0], rest, key);
      InsertDesc(s[0], rest, key)
  }

  lemma FilterHeadBounded<T>(t: seq<T>, p: T -> bool, key: T -> int)
    requires SortedDesc(t, key)
    requires Filter(t, p) != []
    ensures t != [] && key(t[0]) >= key(Filter(t, p)[0])
  {
    FilterMembers(t, p);
    var j :| 0 <= j < |t| && t[j] == Filter(t, p)[0];
  }

  /** Filtering a sequence with a known first element. */
  lemma FilterCons<T>(x: T, t: seq<T>, p: T -> bool)
    ensures Filter([x] + t, p) == (if p(x) then [x] else []) + Filter(t, p)
  {
    assert ([x] + t)[0] == x && ([x] + t)[1..] == t;
  }

  /** An element whose key is at least the head's goes in front. */
  lemma InsertDescFront<T>(x: T, s: seq<T>, key: T -> int)
    requires s == [] || key(x) >= key(s[0])
    ensures InsertDesc(x, s, key) == [x] + s
  {
  }

  /** Inserting in front of the sorted `t` commutes with filtering. */
  lemma FilterInsertDescFront<T>(x: T, t: seq<T>, p: T -> bool, key: T -> int)
    requires SortedDesc(t, key)
    requires t == [] || key(x) >= key(t[0])
    ensures Filter(InsertDesc(x, t, key), p)
         == if p(x) then InsertDesc(x, Filter(t, p), key) else Filter(t, p)
  {
    var ft := Filter(t, p);
    InsertDescFront(x, t, key);
    FilterCons(x, t, p);
    if p(x) {
      if ft != [] {
        FilterHeadBounded(t, p, key);
      }
      InsertDescFront(x, ft, key);
    } else {
      assert [] + ft == ft;
    }
  }

  lemma {:induction false} FilterInsertDesc<T>(x: T, t: seq<T>, p: T -> bool, key: T -> int)
    requires SortedDesc(t, key)
    ensures Filter(InsertDesc(x, t, key), p)
         == if p(x) then InsertDesc(x, Filter(t, p), key) else Filter(t, p)
  {
    if t == [] || key(x) >= key(t[0]) {
      FilterInsertDescFront(x, t, p, key);
    } else {
      var ft, ft1 := Filter(t, p), Filter(t[1..], p);
      var rest := InsertDesc(x, t[1..], key);
      var r := [t[0]] + rest;
      assert InsertDesc(x, t, key) == r;
      assert r[0] == t[0] && r[1..] == rest;
      assert Filter(r, p) == (if p(t[0]) then [t[0]] else []) + Filter(rest, p);
      assert ft == (if p(t[0]) then [t[0]] else []) + ft1;
      FilterInsertDesc(x, t[1..], p, key);
      if p(t[0]) {
        assert ft[0] == t[0] && ft[1..] == ft1;
        if p(x) {
          assert InsertDesc(x, ft, key) == [t[0]] + InsertDesc(x, ft1, key);
        }
      } else {
        assert ft == ft1;
        assert Filter(r, p) == Filter(rest, p);
      }
    }
  }

  /** Filtering a sorted listing gives the sorted listing of the filtered rows. */
  lemma {:induction false} FilterSortDescCommute<T>(s: seq<T>, p: T -> bool, key: T -> int)
    ensures Filter(SortDesc(s, key), p) == SortDesc(Filter(s, p), key)
  {
    if s != [] {
      var s1 := s[1..];
      var sorted1 := SortDesc(s1, key);
      assert SortDesc(s, key) == InsertDesc(s[0], sorted1, key);
      FilterSortDescCommute(s1, p, key);
      FilterInsertDesc(s[0], sorted1, p, key);
      var fs := Filter(s, p);
      assert fs == (if p(s[0]) then [s[0]] else []) + Filter(s1, p);
      if p(s[0]) {
        assert fs[0] == s[0] && fs[1..] == Filter(s1, p);
        assert SortDesc(fs, key) == InsertDesc(s[0], SortDesc(Filter(s1, p), key), key);
      } else {
        assert fs == Filter(s1, p);
      }
    }
  }
}
