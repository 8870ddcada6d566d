// Order-keeping filters and the stable sort by a small integer rank that
// web/view3d.js obtains from `Array.prototype.sort` with a numeric
// comparator.

module Ranking {

  /** The elements of `s` satisfying `p`, in order. */
  function Filter<T(==,!new)>(s: seq<T>, p: T -> bool): (r: seq<T>)
    ensures forall x :: multiset(r)[x] == if p(x) then multiset(s)[x] else 0
    ensures forall i | 0 <= i < |r| :: p(r[i])
  {
    if s == [] then []
    else
      assert s == [s[0]] + s[1..];
      (if p(s[0]) then [s[0]] else []) + Filter(s[1..], p)
  }

  /** The elements of `s` of rank `d`, in order. */
  function OfRank<T(==,!new)>(s: seq<T>, rank: T -> int, d: int): (r: seq<T>)
    ensures forall x :: multiset(r)[x] == if rank(x) == d then multiset(s)[x] else 0
    ensures forall i | 0 <= i < |r| :: rank(r[i]) == d
  {
    if s == [] then []
    else
      assert s == [s[0]] + s[1..];
      (if rank(s[0]) == d then [s[0]] else []) + OfRank(s[1..], rank, d)
  }

  /** A stable sort on a rank in 1..d, highest rank first: the elements of
      rank d in order, then those of rank d - 1, and so on.  This is the
      order `Array.prototype.sort` gives with the comparator
      `(a, b) => rank(b) - rank(a)`. */
  function ByRank<T(==,!new)>(s: seq<T>, rank: T -> int, d: int): (r: seq<T>)
    decreases d
    ensures forall x :: multiset(r)[x] == if 1 <= rank(x) <= d then multiset(s)[x] else 0
    ensures forall i | 0 <= i < |r| :: 1 <= rank(r[i]) <= d
    ensures RankSorted(r, rank)
  {
    if d <= 0 then []
    else
      var top, rest := OfRank(s, rank, d), ByRank(s, rank, d - 1);
      RankStep(s, rank, d, top, rest);
      top + rest
  }

  /** Higher ranks come first. */
  ghost predicate RankSorted<T>(r: seq<T>, rank: T -> int)
  {
    forall i, j | 0 <= i < j < |r| :: rank(r[i]) >= rank(r[j])
  }

  lemma SortedAppend<T>(a: seq<T>, b: seq<T>, rank: T -> int, d: int)
    requires forall i | 0 <= i < |a| :: rank(a[i]) == d
    requires forall i | 0 <= i < |b| :: rank(b[i]) <= d
    requires RankSorted(b, rank)
    ensures RankSorted(a + b, rank)
  {
    var r := a + b;
    forall i, j | 0 <= i < j < |r|
      ensures rank(r[i]) >= rank(r[j])
    {
      if j < |a| {
        assert r[i] == a[i] && r[j] == a[j];
      } else if i < |a| {
        assert r[i] == a[i] && r[j] == b[j - |a|];
      } else {
        assert r[i] == b[i - |a|] && r[j] == b[j - |a|];
      }
    }
  }

  /** The elements of rank d followed by those of ranks d - 1 down to 1 are
      those of ranks d down to 1, sorted. */
  lemma RankStep<T(!new)>(s: seq<T>, rank: T -> int, d: int, top: seq<T>, rest: seq<T>)
    requires d >= 1
    requires forall x :: multiset(top)[x] == if rank(x) == d then multiset(s)[x] else 0
    requires forall i | 0 <= i < |top| :: rank(top[i]) == d
    requires forall x :: multiset(rest)[x] == if 1 <= rank(x) <= d - 1 then multiset(s)[x] else 0
    requires forall i | 0 <= i < |rest| :: 1 <= rank(rest[i]) <= d - 1
    requires RankSorted(rest, rank)
    ensures forall x :: multiset(top + rest)[x] == if 1 <= rank(x) <= d then multiset(s)[x] else 0
    ensures forall i | 0 <= i < |top + rest| :: 1 <= rank((top + rest)[i]) <= d
    ensures RankSorted(top + rest, rank)
  {
    assert multiset(top + rest) == multiset(top) + multiset(rest);
    SortedAppend(top, rest, rank, d);
    forall i | 0 <= i < |top + rest| ensures 1 <= rank((top + rest)[i]) <= d {
      if i < |top| {
        assert (top + rest)[i] == top[i];
      } else {
        assert (top + rest)[i] == rest[i - |top|];
      }
    }
  }

  /** Sorting never duplicates an element. */
  lemma ByRankKeepsDistinct<T(!new)>(s: seq<T>, rank: T -> int, d: int)
    requires forall x :: multiset(s)[x] <= 1
    ensures forall x :: multiset(ByRank(s, rank, d))[x] <= 1
  {
  }
}
