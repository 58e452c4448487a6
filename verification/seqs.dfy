/** Generic list operations: the in-memory stand-ins for SQL `WHERE`,
    `ORDER BY`, `OFFSET`/`LIMIT` and `SUM`, and for JavaScript's
    `Array.prototype.filter` and `sort`. */
module Seqs {

  /** Keeps, in order, the elements that satisfy `p`. */
  function Filter<T(!new)>(s: seq<T>, p: T -> bool): (r: seq<T>)
    ensures |r| <= |s|
    ensures forall x :: x in r <==> x in s && p(x)
  {
    if |s| == 0 then []
    else if p(s[0]) then [s[0]] + Filter(s[1..], p)
    else Filter(s[1..], p)
  }

  /** Filtering twice with the same predicate changes nothing. */
  lemma {:induction false} FilterIdempotent<T(!new)>(s: seq<T>, p: T -> bool)
    ensures Filter(Filter(s, p), p) == Filter(s, p)
    decreases |s|
  {
    if |s| > 0 {
      FilterIdempotent(s[1..], p);
      if p(s[0]) {
        assert ([s[0]] + Filter(s[1..], p))[1..] == Filter(s[1..], p);
      }
    }
  }

  /** Nothing is kept exactly when no element satisfies `p`. */
  lemma FilterEmptyIff<T(!new)>(s: seq<T>, p: T -> bool)
    ensures |Filter(s, p)| == 0 <==> forall x :: x in s ==> !p(x)
  {
    if |Filter(s, p)| > 0 {
      assert Filter(s, p)[0] in Filter(s, p);
    }
  }

  lemma {:induction false} FilterAppend<T(!new)>(a: seq<T>, b: seq<T>, p: T -> bool)
    ensures Filter(a + b, p) == Filter(a, p) + Filter(b, p)
    decreases |a|
  {
    if |a| == 0 {
      assert a + b == b;
    } else {
      assert (a + b)[0] == a[0];
      assert (a + b)[1..] == a[1..] + b;
      FilterAppend(a[1..], b, p);
    }
  }

  /** A filter that keeps everything is the identity. */
  lemma {:induction false} FilterAll<T(!new)>(s: seq<T>, p: T -> bool)
    requires forall x :: x in s ==> p(x)
    ensures Filter(s, p) == s
    decreases |s|
  {
    if |s| > 0 {
      FilterAll(s[1..], p);
    }
  }

  /** A filter that keeps nothing yields the empty sequence. */
  lemma FilterNone<T(!new)>(s: seq<T>, p: T -> bool)
    requires forall x :: x in s ==> !p(x)
    ensures Filter(s, p) == []
  {
    FilterEmptyIff(s, p);
  }

  /** Filters with predicates that agree on the elements are equal. */
  lemma {:induction false} FilterCongruent<T(!new)>(s: seq<T>, p: T -> bool, q: T -> bool)
    requires forall x :: x in s ==> p(x) == q(x)
    ensures Filter(s, p) == Filter(s, q)
    decreases |s|
  {
    if |s| > 0 {
      FilterCongruent(s[1..], p, q);
    }
  }

  /** Number of elements satisfying `p`: SQL `COUNT(*)` under a `WHERE`. */
  function Count<T(!new)>(s: seq<T>, p: T -> bool): (n: nat)
    ensures n == |Filter(s, p)|
  {
    if |s| == 0 then 0 else (if p(s[0]) then 1 else 0) + Count(s[1..], p)
  }

  /** `OFFSET offset LIMIT limit`, where a non-positive value means the
      clause is absent (GORM omits `LIMIT`/`OFFSET` unless positive). */
  function Window<T>(s: seq<T>, offset: int, limit: int): (r: seq<T>)
    ensures |r| <= |s|
    ensures offset <= 0 && limit <= 0 ==> r == s
    ensures limit > 0 ==> |r| <= limit
    ensures forall k :: 0 <= k < |r| ==>
      k + (if offset > 0 then offset else 0) < |s| && r[k] == s[k + (if offset > 0 then offset else 0)]
  {
    var dropped := if offset <= 0 then s else if offset >= |s| then [] else s[offset..];
    if limit <= 0 || limit >= |dropped| then dropped else dropped[..limit]
  }

  /** The elements last to first: `ORDER BY created_at DESC` over rows
      stored in creation order. */
  function Reverse<T>(s: seq<T>): (r: seq<T>)
    ensures |r| == |s|
    ensures forall k :: 0 <= k < |s| ==> r[k] == s[|s| - 1 - k]
  {
    if |s| == 0 then [] else Reverse(s[1..]) + [s[0]]
  }

  function Sum(s: seq<int>): int
  {
    if |s| == 0 then 0 else s[0] + Sum(s[1..])
  }

  lemma {:induction false} SumAppend(a: seq<int>, b: seq<int>)
    ensures Sum(a + b) == Sum(a) + Sum(b)
    decreases |a|
  {
    if |a| == 0 {
      assert a + b == b;
    } else {
      assert (a + b)[1..] == a[1..] + b;
      SumAppend(a[1..], b);
      assert Sum(a + b) == (a + b)[0] + Sum((a + b)[1..]);
    }
  }

  // ---------------------------------------------------------------------
  // Sorting (`ORDER BY`, `Array.prototype.sort`)
  // ---------------------------------------------------------------------

  /** `le` is a total preorder: any two elements compare, and it chains. */
  ghost predicate TotalPreorder<T(!new)>(le: (T, T) -> bool)
  {
    && (forall a, b :: le(a, b) || le(b, a))
    && (forall a, b, c :: le(a, b) && le(b, c) ==> le(a, c))
  }

  predicate Sorted<T>(s: seq<T>, le: (T, T) -> bool)
  {
    forall i, j :: 0 <= i < j < |s| ==> le(s[i], s[j])
  }

  function Insert<T>(x: T, s: seq<T>, le: (T, T) -> bool): (r: seq<T>)
    ensures |r| == |s| + 1
    ensures multiset(r) == multiset(s) + multiset{x}
  {
    if |s| == 0 then [x]
    else if le(x, s[0]) then [x] + s
    else
      assert s == [s[0]] + s[1..];
      [s[0]] + Insert(x, s[1..], le)
  }

  /** Insertion sort: a stable sort by `le`. */
  function SortBy<T>(s: seq<T>, le: (T, T) -> bool): (r: seq<T>)
    ensures |r| == |s|
    ensures multiset(r) == multiset(s)
  {
    if |s| == 0 then []
    else
      assert s == [s[0]] + s[1..];
      Insert(s[0], SortBy(s[1..], le), le)
  }

  lemma {:induction false} InsertSorted<T(!new)>(x: T, s: seq<T>, le: (T, T) -> bool)
    requires TotalPreorder(le)
    requires Sorted(s, le)
    ensures Sorted(Insert(x, s, le), le)
    decreases |s|
  {
    if |s| > 0 && !le(x, s[0]) {
      InsertSorted(x, s[1..], le);
      var r := Insert(x, s, le);
      var tail := Insert(x, s[1..], le);
      assert r == [s[0]] + tail;
      assert le(s[0], x);
      forall j | 0 < j < |r|
        ensures le(s[0], r[j])
      {
        InsertedFrom(x, s[1..], le, j - 1);
        if tail[j - 1] != x {
          var k :| 0 <= k < |s[1..]| && s[1..][k] == tail[j - 1];
          assert s[k + 1] == r[j];
        }
      }
    } else if |s| > 0 {
      var r := Insert(x, s, le);
      forall i, j | 0 <= i < j < |r|
        ensures le(r[i], r[j])
      {
        if i > 0 {
          assert r[i] == s[i - 1] && r[j] == s[j - 1];
        } else {
          assert le(s[0], s[j - 1]) || j - 1 == 0;
        }
      }
    }
  }

  /** Every element of an insertion is the inserted one or an old one. */
  lemma InsertedFrom<T>(x: T, s: seq<T>, le: (T, T) -> bool, i: nat)
    requires i < |Insert(x, s, le)|
    ensures Insert(x, s, le)[i] == x || exists k :: 0 <= k < |s| && s[k] == Insert(x, s, le)[i]
  {
    var r := Insert(x, s, le);
    assert r[i] in multiset(r);
    assert r[i] in multiset(s) + multiset{x};
    if r[i] != x {
      assert r[i] in s;
    }
  }

  /** The result of `SortBy` is ordered by `le` (and, by its contract, is a
      permutation of the input). */
  lemma {:induction false} SortBySorted<T(!new)>(s: seq<T>, le: (T, T) -> bool)
    requires TotalPreorder(le)
    ensures Sorted(SortBy(s, le), le)
    decreases |s|
  {
    if |s| > 0 {
      SortBySorted(s[1..], le);
      InsertSorted(s[0], SortBy(s[1..], le), le);
    }
  }

  /** Filtering keeps the relative order, so a sorted list stays sorted. */
  lemma {:induction false} FilterKeepsSorted<T(!new)>(s: seq<T>, p: T -> bool, le: (T, T) -> bool)
    requires Sorted(s, le)
    ensures Sorted(Filter(s, p), le)
    decreases |s|
  {
    if |s| > 0 {
      assert Sorted(s[1..], le);
      FilterKeepsSorted(s[1..], p, le);
      if p(s[0]) {
        var r := Filter(s, p);
        var tail := Filter(s[1..], p);
        assert r == [s[0]] + tail;
        forall i, j | 0 <= i < j < |r|
          ensures le(r[i], r[j])
        {
          if i == 0 {
            assert r[j] == tail[j - 1];
            assert r[j] in s[1..];
            var k :| 0 <= k < |s[1..]| && s[1..][k] == r[j];
            assert s[k + 1] == r[j];
          } else {
            assert r[i] == tail[i - 1] && r[j] == tail[j - 1];
          }
        }
      }
    }
  }

  /** The number of elements `Window` keeps: what is left after the
      offset, cut to a positive limit. */
  function WindowLength(n: nat, offset: int, limit: int): nat
  {
    var off := if offset > 0 then offset else 0;
    var avail := if off >= n then 0 else n - off;
    if 0 < limit < avail then limit else avail
  }

  lemma WindowSize<T>(s: seq<T>, offset: int, limit: int)
    ensures |Window(s, offset, limit)| == WindowLength(|s|, offset, limit)
  {
  }

  /** `rows` is what `OFFSET offset LIMIT limit` leaves of `s`: as many rows
      as remain after the offset, up to the limit, each one the row that
      many places past the offset. */
  ghost predicate IsWindow<T>(rows: seq<T>, s: seq<T>, offset: int, limit: int)
  {
    var off := if offset > 0 then offset else 0;
    && |rows| == WindowLength(|s|, offset, limit)
    && forall k :: 0 <= k < |rows| ==> k + off < |s| && rows[k] == s[k + off]
  }

  lemma WindowIsWindow<T>(s: seq<T>, offset: int, limit: int)
    ensures IsWindow(Window(s, offset, limit), s, offset, limit)
  {
    WindowSize(s, offset, limit);
  }

  /** A window read from the reversed sequence: element `k` is the
      `offset + k`-th from the end. */
  lemma WindowOfReverse<T>(s: seq<T>, offset: int, limit: int)
    requires offset >= 0
    ensures var r := Window(Reverse(s), offset, limit);
            && |r| == WindowLength(|s|, offset, limit)
            && forall k :: 0 <= k < |r| ==> offset + k < |s| && r[k] == s[|s| - 1 - (offset + k)]
  {
    var r := Window(Reverse(s), offset, limit);
    forall k | 0 <= k < |r|
      ensures offset + k < |s| && r[k] == s[|s| - 1 - (offset + k)]
    {
      assert r[k] == Reverse(s)[k + offset];
    }
  }

  /** A window of a sorted list is sorted. */
  lemma WindowKeepsSorted<T>(s: seq<T>, offset: int, limit: int, le: (T, T) -> bool)
    requires Sorted(s, le)
    ensures Sorted(Window(s, offset, limit), le)
  {
    var r := Window(s, offset, limit);
    var off := if offset > 0 then offset else 0;
    forall i, j | 0 <= i < j < |r|
      ensures le(r[i], r[j])
    {
      assert r[i] == s[i + off] && r[j] == s[j + off];
    }
  }

  // ---------------------------------------------------------------------
  // Subsequences and duplicate removal
  // ---------------------------------------------------------------------

  /** `a` can be obtained from `b` by deleting elements, keeping order
      (matched greedily from the front). */
  predicate IsSubsequence<T(==)>(a: seq<T>, b: seq<T>)
    decreases |b|
  {
    |a| == 0 || (|b| > 0 && if a[0] == b[0] then IsSubsequence(a[1..], b[1..]) else IsSubsequence(a, b[1..]))
  }

  /** Dropping the first element of a subsequence keeps it one. */
  lemma {:induction false} SubsequenceTail<T>(a: seq<T>, b: seq<T>)
    requires |a| > 0 && IsSubsequence(a, b)
    ensures IsSubsequence(a[1..], b)
    decreases |b|, 1
  {
    var t := a[1..];
    if |t| > 0 {
      if a[0] == b[0] {
        // a[1..] is a subsequence of b[1..], hence of b.
        SubsequenceCons(t, b[1..], b[0]);
        assert [b[0]] + b[1..] == b;
      } else {
        SubsequenceTail(a, b[1..]);
        SubsequenceCons(t, b[1..], b[0]);
        assert [b[0]] + b[1..] == b;
      }
    }
  }

  /** A subsequence of a list is a subsequence of any longer list ending
      with it. */
  lemma {:induction false} SubsequenceCons<T>(a: seq<T>, b: seq<T>, x: T)
    requires IsSubsequence(a, b)
    ensures IsSubsequence(a, [x] + b)
    decreases |b|, 2
  {
    var xb := [x] + b;
    assert xb[1..] == b;
    if |a| > 0 && a[0] == x {
      SubsequenceTail(a, b);
    }
  }

  /** What a filter keeps is a subsequence of its input. */
  lemma {:induction false} FilterIsSubsequence<T(!new)>(s: seq<T>, p: T -> bool)
    ensures IsSubsequence(Filter(s, p), s)
    decreases |s|
  {
    if |s| > 0 {
      FilterIsSubsequence(s[1..], p);
      if p(s[0]) {
        assert ([s[0]] + Filter(s[1..], p))[1..] == Filter(s[1..], p);
      } else {
        SubsequenceCons(Filter(s[1..], p), s[1..], s[0]);
        assert [s[0]] + s[1..] == s;
      }
    }
  }

  predicate NoDuplicates<T(==)>(s: seq<T>)
  {
    forall i, j :: 0 <= i < j < |s| ==> s[i] != s[j]
  }

  /** `Array.from(new Set(s))`: each distinct element once, in order of
      first occurrence. */
  function Dedup<T(==,!new)>(s: seq<T>): (r: seq<T>)
    ensures NoDuplicates(r)
    ensures forall x :: x in r <==> x in s
    ensures |r| <= |s|
  {
    if |s| == 0 then []
    else
      var d := Dedup(s[..|s| - 1]);
      assert forall x :: x in s <==> x in s[..|s| - 1] || x == s[|s| - 1] by {
        assert s == s[..|s| - 1] + [s[|s| - 1]];
      }
      if s[|s| - 1] in d then d else d + [s[|s| - 1]]
  }
}
