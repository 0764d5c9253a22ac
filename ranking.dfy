/** Python's stable `sorted(..., reverse=True)` by a numeric key, and `sorted` on strings. */
module Ranking {

  /** Python's tuple comparison `a <= b` on `(count, score)` keys. */
  predicate RankLe(a: (int, real), b: (int, real)) {
    a.0 < b.0 || (a.0 == b.0 && a.1 <= b.1)
  }

  predicate RankLess(a: (int, real), b: (int, real)) {
    a.0 < b.0 || (a.0 == b.0 && a.1 < b.1)
  }

  /** Non-increasing by key. */
  predicate SortedDesc<T>(xs: seq<T>, rank: T -> (int, real)) {
    forall i, j :: 0 <= i < j < |xs| ==> RankLe(rank(xs[j]), rank(xs[i]))
  }

  /** Places `x` after every element whose key is at least its key, so equal keys keep arrival order. */
  function InsertDesc<T>(x: T, xs: seq<T>, rank: T -> (int, real)): (r: seq<T>)
    ensures multiset(r) == multiset(xs) + multiset{x}
    ensures |r| == |xs| + 1
  {
    if xs == [] then [x]
    else if RankLess(rank(xs[0]), rank(x)) then [x] + xs
    else
      assert xs == [xs[0]] + xs[1..];
      [xs[0]] + InsertDesc(x, xs[1..], rank)
  }

  lemma {:induction false} InsertDescSorted<T>(x: T, xs: seq<T>, rank: T -> (int, real))
    requires SortedDesc(xs, rank)
    ensures SortedDesc(InsertDesc(x, xs, rank), rank)
    ensures forall y :: y in InsertDesc(x, xs, rank) ==> y == x || y in xs
  {
    if xs != [] && !RankLess(rank(xs[0]), rank(x)) {
      InsertDescSorted(x, xs[1..], rank);
      var r := InsertDesc(x, xs, rank);
      forall i, j | 0 <= i < j < |r| ensures RankLe(rank(r[j]), rank(r[i])) {
        if i == 0 {
          assert r[j] == x || r[j] in xs[1..];
        }
      }
    }
  }

  /** `sorted(xs, key=rank, reverse=True)`, as an insertion of each element in turn. */
  function SortDesc<T>(xs: seq<T>, rank: T -> (int, real)): (r: seq<T>)
    ensures |r| == |xs|
  {
    if xs == [] then [] else InsertDesc(xs[|xs| - 1], SortDesc(xs[..|xs| - 1], rank), rank)
  }

  /** A single element is already sorted. */
  lemma SortDescSingleton<T>(x: T, rank: T -> (int, real))
    ensures SortDesc([x], rank) == [x]
  {
    assert [x][..0] == [];
  }

  /** The sort yields a non-increasing sequence. */
  lemma {:induction false} SortDescSorted<T>(xs: seq<T>, rank: T -> (int, real))
    ensures SortedDesc(SortDesc(xs, rank), rank)
  {
    if xs != [] {
      SortDescSorted(xs[..|xs| - 1], rank);
      InsertDescSorted(xs[|xs| - 1], SortDesc(xs[..|xs| - 1], rank), rank);
    }
  }

  /** The sort keeps every element with its multiplicity. */
  lemma {:induction false} SortDescPermutes<T>(xs: seq<T>, rank: T -> (int, real))
    ensures multiset(SortDesc(xs, rank)) == multiset(xs)
  {
    if xs != [] {
      var init, last := xs[..|xs| - 1], xs[|xs| - 1];
      SortDescPermutes(init, rank);
      assert xs == init + [last];
    }
  }

  /** The elements of `xs` whose key is `k`, in order. */
  function WithRank<T>(xs: seq<T>, rank: T -> (int, real), k: (int, real)): seq<T> {
    if xs == [] then [] else (if rank(xs[0]) == k then [xs[0]] else []) + WithRank(xs[1..], rank, k)
  }

  lemma {:induction false} WithRankAppend<T>(xs: seq<T>, ys: seq<T>, rank: T -> (int, real), k: (int, real))
    ensures WithRank(xs + ys, rank, k) == WithRank(xs, rank, k) + WithRank(ys, rank, k)
  {
    if xs == [] {
      assert xs + ys == ys;
    } else {
      assert (xs + ys)[1..] == xs[1..] + ys;
      WithRankAppend(xs[1..], ys, rank, k);
      AppendAssoc(if rank(xs[0]) == k then [xs[0]] else [], WithRank(xs[1..], rank, k), WithRank(ys, rank, k));
    }
  }

  lemma {:induction false} WithRankNone<T>(xs: seq<T>, rank: T -> (int, real), k: (int, real))
    requires forall i :: 0 <= i < |xs| ==> rank(xs[i]) != k
    ensures WithRank(xs, rank, k) == []
  {
    if xs != [] {
      WithRankNone(xs[1..], rank, k);
    }
  }

  /** Inserting into a sorted sequence puts `x` after every element with the same key. */
  lemma {:induction false} InsertDescStable<T>(x: T, xs: seq<T>, rank: T -> (int, real), k: (int, real))
    requires SortedDesc(xs, rank)
    ensures WithRank(InsertDesc(x, xs, rank), rank, k) == WithRank(xs, rank, k) + (if rank(x) == k then [x] else [])
  {
    if xs == [] {
      WithRankCons(x, [], rank, k);
      assert [x] + [] == [x];
    } else if RankLess(rank(xs[0]), rank(x)) {
      InsertAtFrontStable(x, xs, rank, k);
    } else {
      SortedTail(xs, rank);
      InsertDescStable(x, xs[1..], rank, k);
      InsertPastHeadStable(x, xs[0], xs[1..], rank, k);
      assert [xs[0]] + xs[1..] == xs;
    }
  }

  lemma SortedTail<T>(xs: seq<T>, rank: T -> (int, real))
    requires SortedDesc(xs, rank) && xs != []
    ensures SortedDesc(xs[1..], rank)
  {
  }

  /** The step of `InsertDescStable` where `x` goes past the head `y`. */
  lemma InsertPastHeadStable<T>(x: T, y: T, ys: seq<T>, rank: T -> (int, real), k: (int, real))
    requires !RankLess(rank(y), rank(x))
    requires WithRank(InsertDesc(x, ys, rank), rank, k) == WithRank(ys, rank, k) + (if rank(x) == k then [x] else [])
    ensures WithRank(InsertDesc(x, [y] + ys, rank), rank, k)
            == WithRank([y] + ys, rank, k) + (if rank(x) == k then [x] else [])
  {
    var rest := InsertDesc(x, ys, rank);
    assert ([y] + ys)[1..] == ys;
    assert InsertDesc(x, [y] + ys, rank) == [y] + rest;
    WithRankCons(y, rest, rank, k);
    WithRankCons(y, ys, rank, k);
    AppendAssoc(if rank(y) == k then [y] else [], WithRank(ys, rank, k), if rank(x) == k then [x] else []);
  }

  lemma AppendAssoc<T>(a: seq<T>, b: seq<T>, c: seq<T>)
    ensures a + (b + c) == (a + b) + c
  {
  }

  /** An element ranked above the head of a sorted sequence shares its key with none of it. */
  lemma InsertAtFrontStable<T>(x: T, xs: seq<T>, rank: T -> (int, real), k: (int, real))
    requires SortedDesc(xs, rank) && xs != [] && RankLess(rank(xs[0]), rank(x))
    ensures WithRank([x] + xs, rank, k) == WithRank(xs, rank, k) + (if rank(x) == k then [x] else [])
  {
    WithRankCons(x, xs, rank, k);
    if rank(x) == k {
      assert forall i :: 0 <= i < |xs| ==> rank(xs[i]) != k by {
        forall i | 0 <= i < |xs| ensures rank(xs[i]) != k {
          if i > 0 {
            assert RankLe(rank(xs[i]), rank(xs[0]));
          }
        }
      }
      WithRankNone(xs, rank, k);
    }
  }

  lemma WithRankCons<T>(x: T, xs: seq<T>, rank: T -> (int, real), k: (int, real))
    ensures WithRank([x] + xs, rank, k) == (if rank(x) == k then [x] else []) + WithRank(xs, rank, k)
  {
    assert ([x] + xs)[1..] == xs;
  }

  /** The sort is stable: the elements of any one key keep their input order. */
  lemma {:induction false} SortDescStable<T>(xs: seq<T>, rank: T -> (int, real), k: (int, real))
    ensures WithRank(SortDesc(xs, rank), rank, k) == WithRank(xs, rank, k)
  {
    if xs != [] {
      var init, last := xs[..|xs| - 1], xs[|xs| - 1];
      SortDescStable(init, rank, k);
      assert xs == init + [last];
      SortDescStableStep(init, last, rank, k);
    }
  }

  /** The step of `SortDescStable` that inserts the last element. */
  lemma SortDescStableStep<T>(init: seq<T>, last: T, rank: T -> (int, real), k: (int, real))
    requires WithRank(SortDesc(init, rank), rank, k) == WithRank(init, rank, k)
    ensures WithRank(SortDesc(init + [last], rank), rank, k) == WithRank(init + [last], rank, k)
  {
    assert (init + [last])[..|init|] == init;
    SortDescSorted(init, rank);
    InsertDescStable(last, SortDesc(init, rank), rank, k);
    WithRankAppend(init, [last], rank, k);
    WithRankCons(last, [], rank, k);
    assert [last] + [] == [last];
  }

  /** The sort yields a non-increasing permutation of its input that keeps equal keys in input order. */
  lemma SortDescSpec<T>(xs: seq<T>, rank: T -> (int, real))
    ensures SortedDesc(SortDesc(xs, rank), rank)
    ensures multiset(SortDesc(xs, rank)) == multiset(xs)
    ensures forall k :: WithRank(SortDesc(xs, rank), rank, k) == WithRank(xs, rank, k)
  {
    SortDescSorted(xs, rank);
    SortDescPermutes(xs, rank);
    forall k ensures WithRank(SortDesc(xs, rank), rank, k) == WithRank(xs, rank, k) {
      SortDescStable(xs, rank, k);
    }
  }

  /** In a non-increasing sequence, no element after the first `n` ranks above one of the first `n`. */
  lemma SortedPrefixIsTop<T>(s: seq<T>, rank: T -> (int, real), n: nat)
    requires SortedDesc(s, rank) && n <= |s|
    ensures forall e, x :: e in s && e !in s[..n] && x in s[..n] ==> RankLe(rank(e), rank(x))
  {
    forall e, x | e in s && e !in s[..n] && x in s[..n]
      ensures RankLe(rank(e), rank(x))
    {
      var i :| 0 <= i < |s| && s[i] == e;
      var j :| 0 <= j < n && s[..n][j] == x;
    }
  }

  /** The first `n` of the sort are a top `n` of the input: nothing left out ranks above anything kept. */
  lemma SortDescTop<T>(xs: seq<T>, rank: T -> (int, real), n: nat)
    requires n <= |xs|
    ensures forall e, x :: e in xs && e !in SortDesc(xs, rank)[..n] && x in SortDesc(xs, rank)[..n]
                           ==> RankLe(rank(e), rank(x))
  {
    var s := SortDesc(xs, rank);
    SortDescSorted(xs, rank);
    SortDescPermutes(xs, rank);
    SortedPrefixIsTop(s, rank, n);
    forall e | e in xs ensures e in s {
      assert e in multiset(xs);
    }
  }

  // ---------------------------------------------------------------- strings

  /** Python's string order: lexicographic by code point. */
  predicate StrLe(a: string, b: string) {
    if a == [] then true
    else if b == [] then false
    else if a[0] != b[0] then a[0] < b[0]
    else StrLe(a[1..], b[1..])
  }

  lemma {:induction false} StrLeTotal(a: string, b: string)
    ensures StrLe(a, b) || StrLe(b, a)
  {
    if a != [] && b != [] && a[0] == b[0] {
      StrLeTotal(a[1..], b[1..]);
    }
  }

  lemma {:induction false} StrLeTransitive(a: string, b: string, c: string)
    requires StrLe(a, b) && StrLe(b, c)
    ensures StrLe(a, c)
  {
    if a != [] && b != [] && c != [] && a[0] == b[0] && b[0] == c[0] {
      StrLeTransitive(a[1..], b[1..], c[1..]);
    }
  }

  predicate SortedStrings(xs: seq<string>) {
    forall i, j :: 0 <= i < j < |xs| ==> StrLe(xs[i], xs[j])
  }

  function InsertString(x: string, xs: seq<string>): (r: seq<string>)
    ensures multiset(r) == multiset(xs) + multiset{x}
    ensures |r| == |xs| + 1
  {
    if xs == [] then [x]
    else if StrLe(x, xs[0]) then [x] + xs
    else
      assert xs == [xs[0]] + xs[1..];
      [xs[0]] + InsertString(x, xs[1..])
  }

  lemma {:induction false} InsertStringSorted(x: string, xs: seq<string>)
    requires SortedStrings(xs)
    ensures SortedStrings(InsertString(x, xs))
    ensures forall y :: y in InsertString(x, xs) ==> y == x || y in xs
  {
    if xs != [] {
      if StrLe(x, xs[0]) {
        var r := InsertString(x, xs);
        forall j | 0 < j < |r| ensures StrLe(x, r[j]) {
          if j > 1 {
            StrLeTransitive(x, xs[0], xs[j - 1]);
          }
        }
      } else {
        StrLeTotal(x, xs[0]);
        InsertStringSorted(x, xs[1..]);
        var r := InsertString(x, xs);
        forall i, j | 0 <= i < j < |r| ensures StrLe(r[i], r[j]) {
          if i == 0 {
            assert r[j] == x || r[j] in xs[1..];
          }
        }
      }
    }
  }

  /** Python's `sorted` on a list of strings. */
  function SortStrings(xs: seq<string>): (r: seq<string>)
    ensures |r| == |xs|
  {
    if xs == [] then [] else InsertString(xs[|xs| - 1], SortStrings(xs[..|xs| - 1]))
  }

  lemma {:induction false} SortStringsSorted(xs: seq<string>)
    ensures SortedStrings(SortStrings(xs))
  {
    if xs != [] {
      SortStringsSorted(xs[..|xs| - 1]);
      InsertStringSorted(xs[|xs| - 1], SortStrings(xs[..|xs| - 1]));
    }
  }

  lemma {:induction false} SortStringsPermutes(xs: seq<string>)
    ensures multiset(SortStrings(xs)) == multiset(xs)
  {
    if xs != [] {
      var init, last := xs[..|xs| - 1], xs[|xs| - 1];
      SortStringsPermutes(init);
      assert xs == init + [last];
    }
  }

  /** `sorted` yields an ascending permutation of its input. */
  lemma SortStringsSpec(xs: seq<string>)
    ensures SortedStrings(SortStrings(xs))
    ensures multiset(SortStrings(xs)) == multiset(xs)
  {
    SortStringsSorted(xs);
    SortStringsPermutes(xs);
  }
}
