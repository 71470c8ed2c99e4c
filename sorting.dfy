/**
 * Ordering by a comparison, as the database's ORDER BY does for the vector store's batch
 * query and the retriever's nearest-first query: a stable insertion sort, proved to
 * produce a sorted permutation of its input.
 */
module Sorting {

  /** `le` compares any two values and is transitive. */
  ghost predicate TotalPreorder<T(!new)>(le: (T, T) -> bool) {
    && (forall a, b :: le(a, b) || le(b, a))
    && (forall a, b, c :: le(a, b) && le(b, c) ==> le(a, c))
  }

  ghost predicate SortedBy<T>(s: seq<T>, le: (T, T) -> bool) {
    forall i, j :: 0 <= i < j < |s| ==> le(s[i], s[j])
  }

  /** Insert `x` into `s` after every element that is not above it. */
  function InsertBy<T>(x: T, s: seq<T>, le: (T, T) -> bool): seq<T> {
    if s == [] then [x]
    else if le(s[0], x) then [s[0]] + InsertBy(x, s[1..], le)
    else [x] + s
  }

  /** Stable sort: each element is inserted, in input order, into the sorted prefix. */
  function SortBy<T>(s: seq<T>, le: (T, T) -> bool): seq<T> {
    if s == [] then []
    else InsertBy(s[|s| - 1], SortBy(s[..|s| - 1], le), le)
  }

  /** The first `k` elements, or all of them when there are fewer (SQL LIMIT). */
  function Take<T>(s: seq<T>, k: nat): (r: seq<T>)
    ensures |r| == if k < |s| then k else |s|
    ensures r == s[..|r|]
  {
    if k < |s| then s[..k] else s
  }

  lemma {:induction false} InsertByPermutes<T>(x: T, s: seq<T>, le: (T, T) -> bool)
    ensures multiset(InsertBy(x, s, le)) == multiset(s) + multiset{x}
    ensures |InsertBy(x, s, le)| == |s| + 1
  {
    if s != [] && le(s[0], x) {
      InsertByPermutes(x, s[1..], le);
      assert s == [s[0]] + s[1..];
    }
  }

  lemma {:induction false} InsertBySorted<T(!new)>(x: T, s: seq<T>, le: (T, T) -> bool)
    requires TotalPreorder(le) && SortedBy(s, le)
    ensures SortedBy(InsertBy(x, s, le), le)
  {
    if s != [] {
      if le(s[0], x) {
        var tail := s[1..];
        SortedTail(s, le);
        InsertBySorted(x, tail, le);
        InsertByPermutes(x, tail, le);
        var rest := InsertBy(x, tail, le);
        forall k | 0 <= k < |rest| ensures le(s[0], rest[k]) {
          assert rest[k] in multiset(rest);
          if rest[k] != x {
            var m :| 0 <= m < |tail| && tail[m] == rest[k];
            assert tail[m] == s[m + 1];
          }
        }
        SortedCons(s[0], rest, le);
      } else {
        forall k | 0 <= k < |s| ensures le(x, s[k]) {
        }
        SortedCons(x, s, le);
      }
    }
  }

  /** The tail of a sorted sequence is sorted. */
  lemma SortedTail<T>(s: seq<T>, le: (T, T) -> bool)
    requires s != [] && SortedBy(s, le)
    ensures SortedBy(s[1..], le)
  {
    forall i, j | 0 <= i < j < |s| - 1 ensures le(s[1..][i], s[1..][j]) {
      assert s[1..][i] == s[i + 1] && s[1..][j] == s[j + 1];
    }
  }

  /** An element not above any element of a sorted sequence can go in front of it. */
  lemma SortedCons<T>(a: T, r: seq<T>, le: (T, T) -> bool)
    requires SortedBy(r, le) && forall k :: 0 <= k < |r| ==> le(a, r[k])
    ensures SortedBy([a] + r, le)
  {
    var ar := [a] + r;
    forall i, j | 0 <= i < j < |ar| ensures le(ar[i], ar[j]) {
      assert ar[j] == r[j - 1];
      if i > 0 {
        assert ar[i] == r[i - 1];
      }
    }
  }

  /** SortBy returns a permutation of its input that is sorted by `le`. */
  lemma {:induction false} SortBySortedPermutation<T(!new)>(s: seq<T>, le: (T, T) -> bool)
    requires TotalPreorder(le)
    ensures multiset(SortBy(s, le)) == multiset(s)
    ensures |SortBy(s, le)| == |s|
    ensures SortedBy(SortBy(s, le), le)
  {
    if s != [] {
      var init := s[..|s| - 1];
      SortBySortedPermutation(init, le);
      InsertByPermutes(s[|s| - 1], SortBy(init, le), le);
      InsertBySorted(s[|s| - 1], SortBy(init, le), le);
      assert s == init + [s[|s| - 1]];
    }
  }

  /** Every element left out of the first `k` of a sorted sequence is not below any
      element kept. */
  lemma TakeSortedKeepsLeast<T>(s: seq<T>, k: nat, le: (T, T) -> bool)
    requires SortedBy(s, le)
    ensures multiset(s[|Take(s, k)|..]) == multiset(s) - multiset(Take(s, k))
    ensures forall x, y :: x in Take(s, k) && y in s[|Take(s, k)|..] ==> le(x, y)
  {
    var n := |Take(s, k)|;
    assert s == s[..n] + s[n..];
    forall x, y | x in Take(s, k) && y in s[n..] ensures le(x, y) {
      var i :| 0 <= i < n && s[..n][i] == x;
      var j :| 0 <= j < |s| - n && s[n..][j] == y;
      assert s[i] == x && s[n + j] == y;
    }
  }

  /** No value occurs twice. */
  ghost predicate Distinct<T>(s: seq<T>) {
    forall i, j :: 0 <= i < j < |s| ==> s[i] != s[j]
  }

  lemma {:induction false} DistinctCountsOnce<T>(s: seq<T>, x: T)
    requires Distinct(s)
    ensures multiset(s)[x] <= 1
  {
    if s != [] {
      var rest := s[1..];
      assert Distinct(rest) by {
        forall i, j | 0 <= i < j < |rest| ensures rest[i] != rest[j] {
          assert rest[i] == s[i + 1] && rest[j] == s[j + 1];
        }
      }
      DistinctCountsOnce(rest, x);
      assert s == [s[0]] + rest;
      if s[0] == x {
        assert x !in rest;
      }
    }
  }

  /** A permutation of a sequence without repeats has no repeats either. */
  lemma PermutationKeepsDistinct<T>(s: seq<T>, t: seq<T>)
    requires Distinct(s) && multiset(t) == multiset(s)
    ensures Distinct(t)
  {
    forall i, j | 0 <= i < j < |t| ensures t[i] != t[j] {
      DistinctCountsOnce(s, t[i]);
      assert t == t[..j] + t[j..];
      assert t[i] in t[..j] && t[j] in t[j..];
    }
  }
}
