/** The ranking part of `compare_strategies`: the best performer is the first
    result with the highest return percentage, and the report lists a copy of
    the results bubble-sorted by return percentage, highest first. */
module Ranking {
  import opened Structures

  /** Capacity of the source's `sorted[10]` copy. */
  const SORT_CAPACITY: nat := 10

  /** `best` is the first index holding the highest return percentage (0 when
      there are no results, as the source initialises it). */
  predicate IsBest(results: seq<StrategyResult>, best: int)
  {
    if results == [] then best == 0
    else
      0 <= best < |results|
      && (forall i :: 0 <= i < |results| ==> results[i].returnPct <= results[best].returnPct)
      && (forall i :: 0 <= i < best ==> results[i].returnPct < results[best].returnPct)
  }

  /** The `best_idx` loop: a later result replaces the best so far only when it
      is strictly better, so the first of equal maxima wins. */
  method BestIndex(results: seq<StrategyResult>) returns (best: int)
    ensures IsBest(results, best)
  {
    best := 0;
    if results == [] {
      return;
    }
    var i := 1;
    while i < |results|
      invariant 0 <= best < i <= |results|
      invariant forall j :: 0 <= j < i ==> results[j].returnPct <= results[best].returnPct
      invariant forall j :: 0 <= j < best ==> results[j].returnPct < results[best].returnPct
    {
      if results[i].returnPct > results[best].returnPct {
        best := i;
      }
      i := i + 1;
    }
  }

  /** Highest return percentage first. */
  predicate SortedDesc(s: seq<StrategyResult>)
  {
    forall i, j :: 0 <= i < j < |s| ==> s[i].returnPct >= s[j].returnPct
  }

  /** The results whose return percentage is `k`, in their order in `s`. */
  function WithReturn(s: seq<StrategyResult>, k: real): seq<StrategyResult>
  {
    if s == [] then []
    else WithReturn(s[..|s| - 1], k) + (if s[|s| - 1].returnPct == k then [s[|s| - 1]] else [])
  }

  /** Ties keep their relative order: for every return percentage, the results
      having it appear in `t` in the same order as in `s`. */
  ghost predicate TiesInOrder(s: seq<StrategyResult>, t: seq<StrategyResult>)
  {
    forall k :: WithReturn(s, k) == WithReturn(t, k)
  }

  /** `t` is a stable descending sort of `s`. */
  ghost predicate RankedFrom(t: seq<StrategyResult>, s: seq<StrategyResult>)
  {
    SortedDesc(t) && multiset(t) == multiset(s) && TiesInOrder(t, s)
  }

  /** `s` with positions j and j+1 exchanged. */
  function SwapNext(s: seq<StrategyResult>, j: nat): (r: seq<StrategyResult>)
    requires j + 1 < |s|
    ensures |r| == |s|
  {
    s[j := s[j + 1]][j + 1 := s[j]]
  }

  lemma {:induction false} WithReturnConcat(a: seq<StrategyResult>, b: seq<StrategyResult>, k: real)
    ensures WithReturn(a + b, k) == WithReturn(a, k) + WithReturn(b, k)
    decreases |b|
  {
    if b == [] {
      assert a + b == a;
    } else {
      var c := b[..|b| - 1];
      WithReturnConcat(a, c, k);
      assert (a + b)[..|a + b| - 1] == a + c;
    }
  }

  lemma PairSwap(x: StrategyResult, y: StrategyResult, k: real)
    requires x.returnPct != y.returnPct
    ensures WithReturn([x, y], k) == WithReturn([y, x], k)
  {
    assert [x, y][..1] == [x];
    assert [y, x][..1] == [y];
  }

  /** Exchanging two neighbours with different return percentages keeps every
      group of ties in order, and keeps the multiset of results. */
  lemma SwapKeepsTies(s: seq<StrategyResult>, j: nat)
    requires j + 1 < |s| && s[j].returnPct != s[j + 1].returnPct
    ensures TiesInOrder(SwapNext(s, j), s) && multiset(SwapNext(s, j)) == multiset(s)
  {
    var t := SwapNext(s, j);
    var pre, post := s[..j], s[j + 2..];
    var xy, yx := [s[j], s[j + 1]], [s[j + 1], s[j]];
    assert s == (pre + xy) + post;
    assert t == (pre + yx) + post;
    forall k ensures WithReturn(t, k) == WithReturn(s, k) {
      WithReturnConcat(pre + xy, post, k);
      WithReturnConcat(pre, xy, k);
      WithReturnConcat(pre + yx, post, k);
      WithReturnConcat(pre, yx, k);
      PairSwap(s[j], s[j + 1], k);
    }
  }

  /** Positions lo.. hold the smallest results in descending order. */
  predicate SettledFrom(s: seq<StrategyResult>, lo: int)
  {
    (forall x, y :: lo <= x < y < |s| && 0 <= x ==> s[x].returnPct >= s[y].returnPct)
    && (forall x, y :: 0 <= x < lo <= y < |s| ==> s[x].returnPct >= s[y].returnPct)
  }

  /** Position j holds the smallest result of positions 0..j. */
  predicate BubbledTo(s: seq<StrategyResult>, j: nat)
    requires j < |s|
  {
    forall x :: 0 <= x < j ==> s[x].returnPct >= s[j].returnPct
  }

  /** `s` holds the results of `s0`, each group of ties in its original order. */
  ghost predicate Placed(s: seq<StrategyResult>, s0: seq<StrategyResult>)
  {
    multiset(s) == multiset(s0) && TiesInOrder(s, s0)
  }

  /** One comparison of a pass: after it the smaller neighbour sits at j+1,
      and the results are still those of `s0` with ties in order. */
  lemma CompareNext(s: seq<StrategyResult>, s0: seq<StrategyResult>, lo: int, j: nat)
    requires j + 1 < lo <= |s| && SettledFrom(s, lo) && BubbledTo(s, j) && Placed(s, s0)
    ensures var t := if s[j].returnPct < s[j + 1].returnPct then SwapNext(s, j) else s;
            SettledFrom(t, lo) && BubbledTo(t, j + 1) && Placed(t, s0)
  {
    if s[j].returnPct < s[j + 1].returnPct {
      SwapKeepsTies(s, j);
    }
  }

  /** At the end of a pass the smallest unsettled result is settled. */
  lemma PassDone(s: seq<StrategyResult>, lo: int)
    requires 1 <= lo <= |s| && SettledFrom(s, lo) && BubbledTo(s, lo - 1)
    ensures SettledFrom(s, lo - 1)
  {
  }

  /** One pass of the bubble sort over positions 0..lo-1: each neighbour pair
      is exchanged when the left one is strictly worse, which carries the
      smallest unsettled result to position lo-1. */
  method BubblePass(a: array<StrategyResult>, lo: int, ghost s0: seq<StrategyResult>)
    requires 1 <= lo <= a.Length && Placed(a[..], s0) && SettledFrom(a[..], lo)
    modifies a
    ensures Placed(a[..], s0) && SettledFrom(a[..], lo - 1)
  {
    var j := 0;
    while j < lo - 1
      invariant 0 <= j <= lo - 1
      invariant Placed(a[..], s0) && SettledFrom(a[..], lo) && BubbledTo(a[..], j)
    {
      ghost var before := a[..];
      CompareNext(before, s0, lo, j);
      if a[j].returnPct < a[j + 1].returnPct {
        a[j], a[j + 1] := a[j + 1], a[j];
        assert a[..] == SwapNext(before, j);
      }
      j := j + 1;
    }
    PassDone(a[..], lo);
  }

  /** The bubble sort of `compare_strategies`, in place on the copy: pass i
      settles position n-1-i. */
  method BubbleSort(a: array<StrategyResult>)
    modifies a
    ensures RankedFrom(a[..], old(a[..]))
  {
    ghost var s0 := a[..];
    var n := a.Length;
    var i := 0;
    while i < n - 1
      invariant 0 <= i <= n
      invariant Placed(a[..], s0) && SettledFrom(a[..], n - i)
    {
      BubblePass(a, n - i, s0);
      i := i + 1;
    }
    assert SettledFrom(a[..], n - i);
  }

  /** The report's data: the best performer's index and the ranked copy. The
      copy lives in a buffer of SORT_CAPACITY entries, so at most that many
      results can be ranked. */
  method CompareStrategies(results: seq<StrategyResult>) returns (best: int, ranking: seq<StrategyResult>)
    requires |results| <= SORT_CAPACITY
    ensures IsBest(results, best)
    ensures RankedFrom(ranking, results)
  {
    best := BestIndex(results);
    var sorted := new StrategyResult[|results|](i requires 0 <= i < |results| => results[i]);
    assert sorted[..] == results;
    BubbleSort(sorted);
    ranking := sorted[..];
  }

  // ---------------------------------------------------------------- the best heads the ranking

  lemma {:induction false} WithReturnNone(s: seq<StrategyResult>, k: real)
    requires forall i :: 0 <= i < |s| ==> s[i].returnPct != k
    ensures WithReturn(s, k) == []
  {
    if s != [] {
      WithReturnNone(s[..|s| - 1], k);
    }
  }

  /** The first result with return percentage k heads the group of k. */
  lemma {:induction false} WithReturnFirst(s: seq<StrategyResult>, i: nat, k: real)
    requires i < |s| && s[i].returnPct == k
    requires forall j :: 0 <= j < i ==> s[j].returnPct != k
    ensures |WithReturn(s, k)| > 0 && WithReturn(s, k)[0] == s[i]
    decreases |s|
  {
    var c := s[..|s| - 1];
    if i == |s| - 1 {
      WithReturnNone(c, k);
    } else {
      WithReturnFirst(c, i, k);
    }
  }

  /** The ranking starts with exactly the result marked best: the highest
      return, and among equal highest returns the one listed first. */
  lemma BestHeadsRanking(results: seq<StrategyResult>, best: int, ranking: seq<StrategyResult>)
    requires results != [] && IsBest(results, best) && RankedFrom(ranking, results)
    ensures |ranking| == |results| && ranking[0] == results[best]
  {
    assert |ranking| == |multiset(ranking)| == |multiset(results)| == |results|;
    var m := results[best].returnPct;
    assert results[best] in multiset(ranking);
    var j :| 0 <= j < |ranking| && ranking[j] == results[best];
    assert ranking[0] in multiset(results);
    var h :| 0 <= h < |results| && results[h] == ranking[0];
    assert ranking[0].returnPct == m;
    WithReturnFirst(ranking, 0, m);
    WithReturnFirst(results, best, m);
  }
}
