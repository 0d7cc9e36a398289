/**
 * The successive-halving model selector: a pool of candidate models each
 * with its own metric, of which the first s in the ranking are active. Each
 * observation is passed to every active candidate; when the cumulative
 * observation counter reaches the rung length r, the active prefix is
 * re-ranked best-first and only ceil(s / eta) candidates stay active.
 *
 * The candidate models themselves are opaque values of type M; what the
 * selector does with them is recorded as metric values, training counts
 * and a log of calls (see module Scoring).
 */
module ModelSelection {
  import opened BudgetPlanner
  import opened Ranking
  import opened Rungs
  import opened Scoring

  /** Why a configuration is refused at construction: the metric cannot
      evaluate a model (ValueError), ceil(log_eta(n)) is undefined
      (math domain error), or a division by zero (eta = 1, or n = 1 so that
      c = 0). */
  datatype ConfigError = IncompatibleModel(index: nat) | MathDomainError | DivisionByZero

  datatype Result<T> = Success(value: T) | Failure(error: ConfigError)

  /** The index of the first model the metric cannot evaluate, or the number
      of models when there is none. */
  method FirstIncompatible(compatible: seq<bool>) returns (k: nat)
    ensures k <= |compatible|
    ensures forall j :: 0 <= j < k ==> compatible[j]
    ensures k < |compatible| ==> !compatible[k]
  {
    k := 0;
    while k < |compatible| && compatible[k]
      invariant k <= |compatible|
      invariant forall j :: 0 <= j < k ==> compatible[j]
    {
      k := k + 1;
    }
  }

  /** The schedule configuration for n models and rate eta, or the error
      evaluating floor(budget / (n * ceil(log(n, eta)))) raises. */
  function PlanFor(n: nat, eta: int, budget: int): (res: Result<Plan>)
    ensures res.Success? <==> n >= 2 && eta >= 2
    ensures res.Success? ==> ValidPlan(res.value) && res.value.n == n && res.value.eta == eta && res.value.budget == budget
    ensures res.Failure? && (n == 0 || eta <= 0) ==> res.error == MathDomainError
    ensures res.Failure? && n >= 1 && eta >= 1 ==> res.error == DivisionByZero
  {
    if n == 0 || eta <= 0 then Failure(MathDomainError)
    else if eta == 1 || n == 1 then Failure(DivisionByZero)
    else Success(Plan(n, eta, budget, CeilLog(n, eta)))
  }

  class SuccessiveHalving<M> {
    const models: seq<M>
    const n: nat
    const eta: nat
    const budget: int
    /** ceil(log_eta(n)), the number of rungs the schedule is planned for. */
    const c: nat
    const biggerIsBetter: bool
    /** Whether candidates are asked for class probabilities rather than
        plain predictions; fixed from the last model at construction. */
    const usesProba: bool

    /** The current value of each candidate's own metric. */
    var metrics: seq<int>
    /** How many observations each candidate has been trained on. */
    var fits: seq<nat>
    var rankings: seq<nat>
    var s: nat
    var r: int
    var nIterations: nat
    var nRungs: nat
    var budgetUsed: int
    var bestModelIdx: nat
    /** The calls made into the candidates' learners and metrics so far. */
    ghost var log: seq<Event>

    function Config(): Plan
    {
      Plan(n, eta, budget, c)
    }

    function State(): Counters
      reads this`s, this`r, this`nIterations, this`nRungs, this`budgetUsed
    {
      Counters(s, r, nIterations, nRungs, budgetUsed)
    }

    ghost function PoolState(): Pool
      reads this`metrics, this`fits, this`bestModelIdx, this`log
    {
      Pool(metrics, fits, bestModelIdx, log)
    }

    ghost predicate Valid()
      reads this
    {
      && |models| == n
      && |metrics| == n
      && |fits| == n
      && IsPermutation(rankings, n)
      // the next two follow from IsPermutation (PermutationFacts); they are
      // kept here so that the methods need not re-derive them
      && |rankings| == n
      && (forall k :: 0 <= k < |rankings| ==> rankings[k] < n)
      && bestModelIdx < n
      && Inv(Config(), State())
    }

    /** A selector over models, every one of which the metric can evaluate,
        each starting from the same metric value `initial`. */
    constructor (models: seq<M>, eta: nat, budget: int, biggerIsBetter: bool, usesProba: bool, initial: int)
      requires |models| >= 2 && eta >= 2
      ensures Valid()
      ensures this.models == models && n == |models| && this.eta == eta && this.budget == budget
      ensures c == CeilLog(|models|, eta)
      ensures this.biggerIsBetter == biggerIsBetter && this.usesProba == usesProba
      ensures metrics == seq(|models|, _ => initial) && fits == seq(|models|, _ => 0)
      ensures rankings == Iota(|models|) && bestModelIdx == 0 && log == []
      ensures State() == Init(Config())
    {
      this.models := models;
      n := |models|;
      this.eta := eta;
      this.budget := budget;
      c := CeilLog(|models|, eta);
      this.biggerIsBetter := biggerIsBetter;
      this.usesProba := usesProba;
      metrics := seq(|models|, _ => initial);
      fits := seq(|models|, _ => 0);
      s := |models|;
      nRungs := 0;
      rankings := Iota(|models|);
      CeilLogBounds(|models|, eta);
      IotaEntries(|models|);
      r := RungLength(budget, |models|, CeilLog(|models|, eta));
      budgetUsed := 0;
      nIterations := 0;
      bestModelIdx := 0;
      log := [];
      new;
      assert State() == Init(Config());
    }

    /** The model currently taken as the best, to which predictions are
        delegated. */
    function BestModel(): (m: M)
      reads this
      requires Valid()
      ensures bestModelIdx < |models| && m == models[bestModelIdx]
    {
      models[bestModelIdx]
    }

    /** Visits candidate i: predicts, updates its metric with that
        prediction, trains it, and takes it as the best when it is not the
        best already and its metric is now strictly better. */
    method VisitOne(i: nat, observed: seq<int>)
      requires WellFormed(PoolState(), n) && |observed| == n && i < n
      modifies this`metrics, this`fits, this`bestModelIdx, this`log
      ensures PoolState() == Visit(old(PoolState()), i, observed, biggerIsBetter, usesProba)
    {
      metrics := metrics[i := observed[i]];
      fits := fits[i := fits[i] + 1];
      // the calls just made: predict, update the metric, train
      log := log + VisitCalls(i, usesProba);
      if i != bestModelIdx && Better(metrics[i], metrics[bestModelIdx], biggerIsBetter) {
        bestModelIdx := i;
      }
    }

    /** Visits the candidates of active in order. */
    method VisitAll(active: seq<nat>, observed: seq<int>)
      requires WellFormed(PoolState(), n) && |observed| == n && InRange(active, observed)
      modifies this`metrics, this`fits, this`bestModelIdx, this`log
      ensures PoolState() == Pass(old(PoolState()), active, observed, biggerIsBetter, usesProba)
    {
      ghost var e0 := PoolState();
      var k := 0;
      while k < |active|
        invariant 0 <= k <= |active|
        invariant PoolState() == Pass(e0, active[..k], observed, biggerIsBetter, usesProba)
      {
        var i := active[k];
        VisitOne(i, observed);
        PassSnoc(e0, active[..k], i, observed, biggerIsBetter, usesProba);
        assert active[..k + 1] == active[..k] + [i];
        k := k + 1;
      }
      assert active[..k] == active;
    }

    /** Re-ranks the active prefix best-first by metric value, in place. */
    method Rerank()
      requires IsPermutation(rankings, n) && s <= |rankings| && InRange(rankings, metrics)
      modifies this`rankings
      ensures rankings == SortBest(old(rankings[..s]), metrics, biggerIsBetter) + old(rankings[s..])
      ensures IsPermutation(rankings, n) && |rankings| == n
      ensures forall k :: 0 <= k < |rankings| ==> rankings[k] < n
    {
      SortPrefixPermutes(rankings, n, s, metrics, biggerIsBetter);
      rankings := SortBest(rankings[..s], metrics, biggerIsBetter) + rankings[s..];
      PermutationFacts(rankings, n);
    }

    /** The counters at the rung the observation just counted completes:
        credits s * r to the budget, keeps ceil(s / eta) candidates active and
        computes the length of the next rung. */
    method Rung()
      requires Inv(Config(), State()) && s > 1 && nIterations >= 1 && nIterations == r
      modifies this`nRungs, this`budgetUsed, this`s, this`r
      ensures State() == Tick(Config(), old(State()).(nIterations := old(nIterations) - 1))
    {
      RungStep(Config(), State().(nIterations := nIterations - 1));
      nRungs := nRungs + 1;
      budgetUsed := budgetUsed + s * r;
      var cutoff := CeilDiv(s, eta);
      s := cutoff;
      r := RungLength(budget, s, c);
    }

    /** Counts the observation and, when it completes a rung, re-ranks the
        active prefix and moves on to the next rung. The re-ranking and the
        counter updates touch disjoint fields; the ranking is taken over the
        active prefix before it shrinks. */
    method Advance()
      requires Valid()
      modifies this`nIterations, this`nRungs, this`budgetUsed, this`rankings, this`s, this`r
      ensures Valid()
      ensures State() == Tick(Config(), old(State()))
      ensures rankings == if Fires(old(State()))
        then SortBest(old(rankings[..s]), metrics, biggerIsBetter) + old(rankings[s..])
        else old(rankings)
    {
      ghost var st0 := State();
      TickKeepsInv(Config(), st0);
      nIterations := nIterations + 1;
      if s > 1 && nIterations == r {
        Rerank();
        Rung();
      }
    }

    /** Processes one observation. observed[i] is the value candidate i's
        metric reports once it has been updated with its prediction for this
        observation. */
    method FitOne(observed: seq<int>)
      requires Valid() && |observed| == n
      modifies this
      ensures Valid()
      // the active candidates are visited in ranking order (module Scoring)
      ensures PoolState() == Pass(old(PoolState()), old(rankings[..s]), observed, biggerIsBetter, usesProba)
      // the counters follow the schedule (module Rungs)
      ensures State() == Tick(Config(), old(State()))
      // a rung re-ranks the active prefix best-first, stably, and nothing beyond it
      ensures rankings == if Fires(old(State()))
        then SortBest(old(rankings[..s]), metrics, biggerIsBetter) + old(rankings[s..])
        else old(rankings)
    {
      var active := rankings[..s];
      VisitAll(active, observed);
      assert Valid();
      Advance();
    }
  }

  /** Building a selector: every model is checked against the metric first,
      then the schedule is computed. isClassifier says which models are
      classifiers; the prediction entry point is chosen from the last one. */
  method Construct<M>(models: seq<M>, compatible: seq<bool>, isClassifier: seq<bool>, requiresLabels: bool,
                      biggerIsBetter: bool, initial: int, budget: int, eta: int)
    returns (res: Result<SuccessiveHalving<M>>)
    requires |compatible| == |models| && |isClassifier| == |models|
    ensures (exists j :: 0 <= j < |models| && !compatible[j]) <==> res.Failure? && res.error.IncompatibleModel?
    ensures res.Failure? && res.error.IncompatibleModel? ==>
      var k := res.error.index; k < |models| && !compatible[k] && forall j :: 0 <= j < k ==> compatible[j]
    ensures (forall j :: 0 <= j < |models| ==> compatible[j]) ==>
      (res.Success? <==> PlanFor(|models|, eta, budget).Success?) &&
      (res.Failure? ==> res.error == PlanFor(|models|, eta, budget).error)
    ensures res.Success? ==>
      && fresh(res.value) && res.value.Valid()
      && res.value.models == models && res.value.eta == eta && res.value.budget == budget
      && res.value.biggerIsBetter == biggerIsBetter
      && res.value.usesProba == (isClassifier[|models| - 1] && !requiresLabels)
      && res.value.metrics == seq(|models|, _ => initial) && res.value.fits == seq(|models|, _ => 0)
      && res.value.log == []
      && res.value.rankings == Iota(|models|) && res.value.bestModelIdx == 0
      && res.value.State() == Init(res.value.Config())
  {
    var k := FirstIncompatible(compatible);
    if k < |compatible| {
      return Failure(IncompatibleModel(k));
    }
    var plan := PlanFor(|models|, eta, budget);
    if plan.Failure? {
      return Failure(plan.error);
    }
    var sh := new SuccessiveHalving(models, eta, budget, biggerIsBetter,
                                    isClassifier[|models| - 1] && !requiresLabels, initial);
    return Success(sh);
  }
}
