/**
 * One pass of the scheduler over its active candidates: each candidate, in
 * ranking order, predicts, has its metric updated and is trained, and the
 * best-candidate index moves to it when its metric has become strictly
 * better than the current best's.
 *
 * Learners and metrics are opaque here. The metric value a candidate
 * reports after its update is supplied by the caller (`observed[i]`),
 * training is counted per candidate, and the calls made into the learners
 * and metrics are recorded as a log of events.
 */
module Scoring {
  import opened Ranking

  /** A call into a candidate's learner or metric. */
  datatype Event =
    | Predict(candidate: nat, proba: bool)  // predict_one, or predict_proba_one when proba
    | Update(candidate: nat)                // metric.update with that prediction
    | Learn(candidate: nat)                  // fit_one on the observation

  /** The per-candidate state a pass touches: metric values, number of
      observations each learner was trained on, the best index, and the
      calls made so far. */
  datatype Pool = Pool(metrics: seq<int>, fits: seq<nat>, best: nat, log: seq<Event>)

  predicate WellFormed(e: Pool, n: nat)
  {
    |e.metrics| == n && |e.fits| == n && e.best < n
  }

  /** The three calls one visit of candidate i makes, in order. */
  function VisitCalls(i: nat, proba: bool): seq<Event>
  {
    [Predict(i, proba), Update(i), Learn(i)]
  }

  /** Visiting candidate i: predict, update its metric, train it, and take it
      as the new best if it is not the best already and its metric is now
      strictly better than the best's. */
  function Visit(e: Pool, i: nat, observed: seq<int>, biggerIsBetter: bool, proba: bool): (e': Pool)
    requires WellFormed(e, |observed|) && i < |observed|
    ensures WellFormed(e', |observed|)
    ensures e'.metrics == e.metrics[i := observed[i]]
    ensures e'.fits == e.fits[i := e.fits[i] + 1]
    ensures e'.log == e.log + VisitCalls(i, proba)
    // the best moves only to i, and only when i is strictly better ...
    ensures e'.best == e.best || (e'.best == i && i != e.best && Better(observed[i], e.metrics[e.best], biggerIsBetter))
    // ... and it does move whenever that is the case; a tie keeps the incumbent
    ensures i != e.best && Better(observed[i], e.metrics[e.best], biggerIsBetter) ==> e'.best == i
  {
    var metrics := e.metrics[i := observed[i]];
    var fits := e.fits[i := e.fits[i] + 1];
    var best := if i != e.best && Better(metrics[i], metrics[e.best], biggerIsBetter) then i else e.best;
    Pool(metrics, fits, best, e.log + VisitCalls(i, proba))
  }

  /** The calls a pass over ids makes. */
  function PassCalls(ids: seq<nat>, proba: bool): (r: seq<Event>)
    ensures |r| == 3 * |ids|
  {
    if ids == [] then [] else PassCalls(ids[..|ids| - 1], proba) + VisitCalls(ids[|ids| - 1], proba)
  }

  /** Visiting the candidates of ids one after the other, in the order of ids. */
  function Pass(e: Pool, ids: seq<nat>, observed: seq<int>, biggerIsBetter: bool, proba: bool): (e': Pool)
    requires WellFormed(e, |observed|) && InRange(ids, observed)
    ensures WellFormed(e', |observed|)
    ensures e'.log == e.log + PassCalls(ids, proba)
  {
    if ids == [] then e
    else
      var front := ids[..|ids| - 1];
      assert ids == front + [ids[|ids| - 1]];
      Visit(Pass(e, front, observed, biggerIsBetter, proba), ids[|ids| - 1], observed, biggerIsBetter, proba)
  }

  /** A pass over ids followed by x visits x last. */
  lemma PassSnoc(e: Pool, ids: seq<nat>, x: nat, observed: seq<int>, biggerIsBetter: bool, proba: bool)
    requires WellFormed(e, |observed|) && InRange(ids, observed) && x < |observed|
    ensures InRange(ids + [x], observed)
    ensures Pass(e, ids + [x], observed, biggerIsBetter, proba)
            == Visit(Pass(e, ids, observed, biggerIsBetter, proba), x, observed, biggerIsBetter, proba)
  {
    assert (ids + [x])[..|ids|] == ids;
  }

  /** A pass sets the metric of exactly the candidates it visits, trains each
      of them once per occurrence and nobody else, and the best index it ends
      on is the old one or a visited candidate. */
  lemma {:induction false} PassEffect(e: Pool, ids: seq<nat>, observed: seq<int>, biggerIsBetter: bool, proba: bool)
    requires WellFormed(e, |observed|) && InRange(ids, observed)
    ensures var e' := Pass(e, ids, observed, biggerIsBetter, proba);
      && (forall j :: 0 <= j < |observed| ==> e'.metrics[j] == if j in ids then observed[j] else e.metrics[j])
      && (forall j :: 0 <= j < |observed| ==> e'.fits[j] == e.fits[j] + multiset(ids)[j])
      && (e'.best == e.best || e'.best in ids)
  {
    if ids != [] {
      var front, last := ids[..|ids| - 1], ids[|ids| - 1];
      assert ids == front + [last];
      PassEffect(e, front, observed, biggerIsBetter, proba);
      assert multiset(ids) == multiset(front) + multiset{last};
      forall j | 0 <= j < |observed|
        ensures j in ids <==> j in front || j == last
      {
      }
    }
  }

  /** A pass over the first s entries of a ranking (a permutation of the
      candidates) rescores and trains each active candidate exactly once and
      leaves every eliminated candidate's metric and learner alone. */
  lemma PassOverActive(e: Pool, rankings: seq<nat>, s: nat, observed: seq<int>, biggerIsBetter: bool, proba: bool)
    requires WellFormed(e, |observed|) && IsPermutation(rankings, |observed|) && s <= |rankings|
    ensures InRange(rankings[..s], observed)
    ensures var e' := Pass(e, rankings[..s], observed, biggerIsBetter, proba);
      && (forall j :: 0 <= j < |observed| && j !in rankings[..s] ==> e'.metrics[j] == e.metrics[j] && e'.fits[j] == e.fits[j])
      && (forall j :: 0 <= j < |observed| && j in rankings[..s] ==> e'.metrics[j] == observed[j] && e'.fits[j] == e.fits[j] + 1)
      && (e'.best == e.best || e'.best in rankings[..s])
  {
    PermutationFacts(rankings, |observed|);
    PassEffect(e, rankings[..s], observed, biggerIsBetter, proba);
    forall j: nat | j < |observed| {
      PrefixCount(rankings, |observed|, s, j);
    }
  }

  /** The calls of a pass come in ranking order, and each candidate is
      predicted on and scored before it is trained. */
  lemma {:induction false} PassCallsOrder(ids: seq<nat>, proba: bool)
    ensures forall k :: 0 <= k < |ids| ==>
      && PassCalls(ids, proba)[3 * k] == Predict(ids[k], proba)
      && PassCalls(ids, proba)[3 * k + 1] == Update(ids[k])
      && PassCalls(ids, proba)[3 * k + 2] == Learn(ids[k])
  {
    if ids != [] {
      var front := ids[..|ids| - 1];
      PassCallsOrder(front, proba);
      forall k | 0 <= k < |ids|
        ensures PassCalls(ids, proba)[3 * k] == Predict(ids[k], proba)
        ensures PassCalls(ids, proba)[3 * k + 1] == Update(ids[k])
        ensures PassCalls(ids, proba)[3 * k + 2] == Learn(ids[k])
      {
        if k < |front| {
          assert ids[k] == front[k];
        }
      }
    }
  }

  /** A pass over distinct candidates that does not rescore the current best
      ends on the best of them: nobody visited, and not the old best, is
      strictly better than the final best, and the final best's metric is
      the old best's or a value just observed.

      In a run the active candidates are distinct (PrefixCount), but the
      current best is among them until it has been eliminated at a rung;
      candidate 0 starts out both best and active. So this is the guarantee
      of a pass once the best has been eliminated only; when the best is
      rescored, the best index can go stale (RescoredBestGoesStale), and
      what holds of every pass is what Visit states of each visit. */
  lemma {:induction false} PassFindsBest(e: Pool, ids: seq<nat>, observed: seq<int>, biggerIsBetter: bool, proba: bool)
    requires WellFormed(e, |observed|) && InRange(ids, observed)
    requires forall a, b :: 0 <= a < b < |ids| ==> ids[a] != ids[b]
    requires e.best !in ids
    ensures var e' := Pass(e, ids, observed, biggerIsBetter, proba);
      && !Better(e.metrics[e.best], e'.metrics[e'.best], biggerIsBetter)
      && (forall j :: j in ids ==> !Better(observed[j], e'.metrics[e'.best], biggerIsBetter))
      && (e'.best == e.best || (e'.best in ids && e'.metrics[e'.best] == observed[e'.best]))
  {
    if ids != [] {
      var front, last := ids[..|ids| - 1], ids[|ids| - 1];
      assert ids == front + [last];
      assert last !in front by {
        forall a | 0 <= a < |front| ensures front[a] != last {
          assert front[a] == ids[a];
        }
      }
      PassFindsBest(e, front, observed, biggerIsBetter, proba);
      var m := Pass(e, front, observed, biggerIsBetter, proba);
      var e' := Visit(m, last, observed, biggerIsBetter, proba);
      assert m.metrics[m.best] == e'.metrics[m.best] || m.best == last;
    }
  }

  /** The best candidate's metric value can become worse than another
      candidate's within one pass when the best itself is rescored: the
      best index does not move, because only other candidates are compared
      against the best. */
  lemma RescoredBestGoesStale()
    ensures var e' := Pass(Pool([5, 3], [0, 0], 0, []), [1, 0], [1, 3], true, false);
      e'.best == 0 && e'.metrics == [1, 3] && Better(e'.metrics[1], e'.metrics[e'.best], true)
  {
    var e := Pool([5, 3], [0, 0], 0, []);
    assert [1, 0][..1] == [1];
    assert [1][..0] == [];
    var m := Visit(e, 1, [1, 3], true, false);
    assert m.best == 0 && m.metrics == [5, 3];
  }
}
