/**
 * The ranking of candidates: a permutation of the candidate indices
 * 0..n-1, and the stable best-first sort a rung applies to its active
 * prefix (`sorted(..., key=metric, reverse=bigger_is_better)`).
 *
 * Candidates are indices into a sequence of metric values; a candidate is
 * better than another when its metric value is strictly greater (a metric
 * where bigger is better) or strictly smaller (otherwise).
 */
module Ranking {

  /** Metric value a is strictly better than b under the metric's orientation. */
  predicate Better(a: int, b: int, biggerIsBetter: bool)
  {
    if biggerIsBetter then a > b else a < b
  }

  /** Every index in ids names a candidate that has a metric value. */
  predicate InRange(ids: seq<nat>, metrics: seq<int>)
  {
    forall k :: 0 <= k < |ids| ==> ids[k] < |metrics|
  }

  /** No candidate in ids is strictly better than one ranked before it. */
  predicate BestFirst(ids: seq<nat>, metrics: seq<int>, biggerIsBetter: bool)
    requires InRange(ids, metrics)
  {
    forall i, j :: 0 <= i < j < |ids| ==> !Better(metrics[ids[j]], metrics[ids[i]], biggerIsBetter)
  }

  /** The candidates of ids whose metric value is v, in the order of ids. */
  function WithScore(ids: seq<nat>, metrics: seq<int>, v: int): seq<nat>
    requires InRange(ids, metrics)
  {
    if ids == [] then []
    else (if metrics[ids[0]] == v then [ids[0]] else []) + WithScore(ids[1..], metrics, v)
  }

  /** Places x after the candidates of a best-first list that are strictly
      better than it, and before all the others. */
  function Insert(x: nat, ids: seq<nat>, metrics: seq<int>, biggerIsBetter: bool): (r: seq<nat>)
    requires x < |metrics| && InRange(ids, metrics)
    ensures |r| == |ids| + 1
    ensures InRange(r, metrics)
  {
    if ids == [] then [x]
    else
      if Better(metrics[ids[0]], metrics[x], biggerIsBetter) then
        [ids[0]] + Insert(x, ids[1..], metrics, biggerIsBetter)
      else
        [x] + ids
  }

  /** The active prefix reordered best-first by metric value; candidates with
      equal values keep their relative order. */
  function SortBest(ids: seq<nat>, metrics: seq<int>, biggerIsBetter: bool): (r: seq<nat>)
    requires InRange(ids, metrics)
    ensures |r| == |ids|
    ensures InRange(r, metrics)
  {
    if ids == [] then []
    else
      Insert(ids[0], SortBest(ids[1..], metrics, biggerIsBetter), metrics, biggerIsBetter)
  }

  /** Insert adds x and loses nothing. */
  lemma {:induction false} InsertPermutes(x: nat, ids: seq<nat>, metrics: seq<int>, biggerIsBetter: bool)
    requires x < |metrics| && InRange(ids, metrics)
    ensures multiset(Insert(x, ids, metrics, biggerIsBetter)) == multiset(ids) + multiset{x}
  {
    if ids != [] {
      assert ids == [ids[0]] + ids[1..];
      if Better(metrics[ids[0]], metrics[x], biggerIsBetter) {
        InsertPermutes(x, ids[1..], metrics, biggerIsBetter);
      }
    }
  }

  /** The sorted prefix holds the same candidates, each as often as before. */
  lemma {:induction false} SortBestPermutes(ids: seq<nat>, metrics: seq<int>, biggerIsBetter: bool)
    requires InRange(ids, metrics)
    ensures multiset(SortBest(ids, metrics, biggerIsBetter)) == multiset(ids)
  {
    if ids != [] {
      assert ids == [ids[0]] + ids[1..];
      SortBestPermutes(ids[1..], metrics, biggerIsBetter);
      InsertPermutes(ids[0], SortBest(ids[1..], metrics, biggerIsBetter), metrics, biggerIsBetter);
    }
  }

  lemma {:induction false} InsertBestFirst(x: nat, ids: seq<nat>, metrics: seq<int>, biggerIsBetter: bool)
    requires x < |metrics| && InRange(ids, metrics)
    requires BestFirst(ids, metrics, biggerIsBetter)
    ensures BestFirst(Insert(x, ids, metrics, biggerIsBetter), metrics, biggerIsBetter)
  {
    var r := Insert(x, ids, metrics, biggerIsBetter);
    if ids != [] {
      if Better(metrics[ids[0]], metrics[x], biggerIsBetter) {
        var tail := Insert(x, ids[1..], metrics, biggerIsBetter);
        InsertBestFirst(x, ids[1..], metrics, biggerIsBetter);
        InsertPermutes(x, ids[1..], metrics, biggerIsBetter);
        forall j | 0 <= j < |tail|
          ensures !Better(metrics[tail[j]], metrics[ids[0]], biggerIsBetter)
        {
          assert tail[j] in multiset(tail);
          if tail[j] != x {
            assert tail[j] in multiset(ids[1..]);
            var k :| 0 <= k < |ids[1..]| && ids[1..][k] == tail[j];
            assert ids[k + 1] == tail[j];
          }
        }
      } else {
        forall j | 0 <= j < |ids|
          ensures !Better(metrics[ids[j]], metrics[x], biggerIsBetter)
        {
          if j > 0 {
            assert !Better(metrics[ids[j]], metrics[ids[0]], biggerIsBetter);
          }
        }
      }
    }
  }

  /** The sorted prefix is best-first. */
  lemma {:induction false} SortBestOrdered(ids: seq<nat>, metrics: seq<int>, biggerIsBetter: bool)
    requires InRange(ids, metrics)
    ensures BestFirst(SortBest(ids, metrics, biggerIsBetter), metrics, biggerIsBetter)
  {
    if ids != [] {
      SortBestOrdered(ids[1..], metrics, biggerIsBetter);
      InsertBestFirst(ids[0], SortBest(ids[1..], metrics, biggerIsBetter), metrics, biggerIsBetter);
    }
  }

  lemma WithScoreCons(x: nat, ids: seq<nat>, metrics: seq<int>, v: int)
    requires x < |metrics| && InRange(ids, metrics)
    ensures WithScore([x] + ids, metrics, v)
            == (if metrics[x] == v then [x] else []) + WithScore(ids, metrics, v)
  {
    assert ([x] + ids)[1..] == ids;
  }

  lemma {:induction false} InsertWithScore(x: nat, ids: seq<nat>, metrics: seq<int>, biggerIsBetter: bool, v: int)
    requires x < |metrics| && InRange(ids, metrics)
    ensures WithScore(Insert(x, ids, metrics, biggerIsBetter), metrics, v)
            == (if metrics[x] == v then [x] else []) + WithScore(ids, metrics, v)
  {
    if ids == [] {
      WithScoreCons(x, [], metrics, v);
    } else if Better(metrics[ids[0]], metrics[x], biggerIsBetter) {
      var tail := Insert(x, ids[1..], metrics, biggerIsBetter);
      InsertWithScore(x, ids[1..], metrics, biggerIsBetter, v);
      WithScoreCons(ids[0], tail, metrics, v);
      WithScoreCons(ids[0], ids[1..], metrics, v);
      assert [ids[0]] + ids[1..] == ids;
    } else {
      WithScoreCons(x, ids, metrics, v);
    }
  }

  /** Stability: for every metric value, the candidates holding it appear in
      the sorted prefix in the same order as before. */
  lemma {:induction false} SortBestStable(ids: seq<nat>, metrics: seq<int>, biggerIsBetter: bool, v: int)
    requires InRange(ids, metrics)
    ensures WithScore(SortBest(ids, metrics, biggerIsBetter), metrics, v) == WithScore(ids, metrics, v)
  {
    if ids != [] {
      SortBestStable(ids[1..], metrics, biggerIsBetter, v);
      InsertWithScore(ids[0], SortBest(ids[1..], metrics, biggerIsBetter), metrics, biggerIsBetter, v);
      WithScoreCons(ids[0], ids[1..], metrics, v);
      assert [ids[0]] + ids[1..] == ids;
    }
  }

  /** The initial ranking [0, 1, ..., n-1]. */
  function Iota(n: nat): (r: seq<nat>)
    ensures |r| == n
  {
    if n == 0 then [] else Iota(n - 1) + [n - 1]
  }

  /** The initial ranking holds candidate i at position i. */
  lemma {:induction false} IotaEntries(n: nat)
    ensures forall i :: 0 <= i < n ==> Iota(n)[i] == i
  {
    if n > 0 {
      IotaEntries(n - 1);
    }
  }

  /** ids holds each of the candidates 0..n-1 exactly once. */
  predicate IsPermutation(ids: seq<nat>, n: nat)
  {
    multiset(ids) == multiset(Iota(n))
  }

  /** Appending v adds one occurrence of v and changes no other count. */
  lemma SnocCount(a: seq<nat>, v: nat, x: nat)
    ensures multiset(a + [v])[x] == multiset(a)[x] + (if x == v then 1 else 0)
  {
    assert multiset(a + [v]) == multiset(a) + multiset{v};
  }

  lemma {:induction false} IotaCount(n: nat, x: nat)
    ensures multiset(Iota(n))[x] == if x < n then 1 else 0
  {
    if n > 0 {
      var prev := Iota(n - 1);
      IotaCount(n - 1, x);
      SnocCount(prev, n - 1, x);
      assert Iota(n) == prev + [n - 1];
      var c := multiset(prev)[x];
      if x < n - 1 {
        assert c == 1;
      } else if x == n - 1 {
        assert c == 0;
      } else {
        assert c == 0;
      }
    }
  }

  /** A permutation of 0..n-1 has length n, its entries are below n and no
      entry occurs twice. */
  lemma PermutationFacts(ids: seq<nat>, n: nat)
    requires IsPermutation(ids, n)
    ensures |ids| == n
    ensures forall i :: 0 <= i < |ids| ==> ids[i] < n
    ensures forall i, j :: 0 <= i < j < |ids| ==> ids[i] != ids[j]
  {
    assert |ids| == |multiset(ids)| == |multiset(Iota(n))| == n;
    forall i | 0 <= i < |ids|
      ensures ids[i] < n
    {
      assert ids[i] in multiset(ids);
      IotaCount(n, ids[i]);
    }
    forall i, j | 0 <= i < j < |ids|
      ensures ids[i] != ids[j]
    {
      var x := ids[i];
      assert ids == ids[..j] + ids[j..];
      assert multiset(ids) == multiset(ids[..j]) + multiset(ids[j..]);
      assert x in multiset(ids[..j]) by { assert ids[..j][i] == x; }
      IotaCount(n, x);
      assert multiset(ids[j..])[x] == 0;
      assert ids[j..][0] == ids[j];
      assert multiset(ids[j..])[ids[j]] >= 1;
    }
  }

  /** Each candidate occurs at most once in a prefix of a permutation. */
  lemma PrefixCount(ids: seq<nat>, n: nat, s: nat, x: nat)
    requires IsPermutation(ids, n) && s <= |ids|
    ensures multiset(ids[..s])[x] == if x in ids[..s] then 1 else 0
  {
    assert ids == ids[..s] + ids[s..];
    assert multiset(ids) == multiset(ids[..s]) + multiset(ids[s..]);
    IotaCount(n, x);
  }

  /** Sorting the first s entries of a permutation of 0..n-1 gives a
      permutation of 0..n-1 that agrees with the old one beyond s. */
  lemma SortPrefixPermutes(ids: seq<nat>, n: nat, s: nat, metrics: seq<int>, biggerIsBetter: bool)
    requires IsPermutation(ids, n) && s <= |ids| && InRange(ids, metrics)
    ensures InRange(ids[..s], metrics)
    ensures IsPermutation(SortBest(ids[..s], metrics, biggerIsBetter) + ids[s..], n)
  {
    assert ids == ids[..s] + ids[s..];
    var sorted := SortBest(ids[..s], metrics, biggerIsBetter);
    SortBestPermutes(ids[..s], metrics, biggerIsBetter);
    assert multiset(sorted + ids[s..]) == multiset(sorted) + multiset(ids[s..]);
  }
}
