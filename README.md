# Successive halving model selection

A Dafny model of the online successive-halving model selector of creme
(`SuccessiveHalving` in `creme/model_selection/sh.py`). The selector
holds a pool of `n` candidate models. Each model has its own metric. A
ranking permutation of the candidates is kept, and its first `s`
entries are the active candidates.

On every observation, `fit_one` does the following:

- Each active candidate, in ranking order, predicts, has its metric
  updated with that prediction, and is trained.
- The best-candidate index moves to a candidate that is not already the
  best and whose metric has become strictly better.
- The cumulative observation counter is incremented.
- A rung fires when more than one candidate is active and the counter
  equals the rung length `r`. At a rung:
  - `s * r` is credited to the budget;
  - the active prefix is stably re-sorted best-first;
  - `s` shrinks to `ceil(s / eta)`;
  - `r` becomes `floor(budget / (s * c))`, where `c = ceil(log_eta(n))`.

The project has five modules:

- `BudgetPlanner` (`planner.dfy`): the integer arithmetic. This covers
  `ceil(s / eta)`, the integer `ceil(log_eta(n))` with its characterising
  bounds, and the rung length.
- `Ranking` (`ranking.dfy`): the permutation of candidate indices and the
  stable best-first sort of the active prefix. The sort is a pure
  function, because `sorted` builds a new list that is then assigned back
  into the slice.
- `Rungs` (`rungs.dfy`): the integer counters `s`, `r`, `_n_iterations`,
  `_n_rungs` and `_budget_used` as a transition function `Tick`. It
  includes:
  - the invariant `Tick` keeps;
  - the budget bound;
  - the documented trace for 10 candidates, `eta = 2` and budget 2000;
  - the corner cases in which rungs stop firing.
- `Scoring` (`scoring.dfy`): one pass over the active candidates, as a
  function over the per-candidate state. Each candidate's metric value
  after its update is supplied by the caller. Training is a
  per-candidate counter. The calls made into the learners and metrics
  are recorded as a log of events.
- `ModelSelection` (`model_selection.dfy`): the class `SuccessiveHalving`,
  whose fields are updated in place by `FitOne`, and `Construct`, which
  performs the checks and error paths of construction. Each method is
  proved against the functions of `Scoring` and `Rungs`.

The model follows the code as written; in particular:

- The observation counter is never reset. A rung therefore fires when
  the *cumulative* count equals the newly computed `r`. This is why the
  documented rungs fall at 50, 100, 166 and 250 (`ExampleTrace`).
- The test is an equality made after the increment. A first rung length
  of 0 (a budget below `n * c`) therefore never fires a rung
  (`NoRungWithSmallBudget`). A recomputed `r` that is not beyond the
  counter stops the schedule for good, with several candidates still
  active (`StallingTrace`: 3 candidates, `eta = 2`, budget 6).
- The best candidate is compared only against other candidates. When
  the best itself is rescored, its metric can become worse than another
  candidate's without the index moving (`RescoredBestGoesStale`).
- The prediction entry point is fixed from the *last* model of the list,
  the loop variable left over from the compatibility check.

## Model

| member | source | states |
|---|---|---|
| BudgetPlanner.CeilDiv | creme/model_selection/sh.py:78 | the cutoff is the least q with q * eta >= s |
| BudgetPlanner.CutoffShrinks | creme/model_selection/sh.py:78 | with eta >= 2, ceil(s / eta) keeps at least one candidate and strictly fewer than s when s > 1 |
| BudgetPlanner.CeilLog | creme/model_selection/sh.py:33 | the integer ceil(log_eta(n)) standing for the float expression of lines 33 and 93; its contract is CeilLogBounds and CeilLogLeast: the least k with eta^k >= n |
| BudgetPlanner.CeilLogBounds | creme/model_selection/sh.py:33 | eta^c >= n, and for n >= 2, c >= 1 and eta^(c-1) < n: c is ceil(log_eta(n)) |
| BudgetPlanner.CeilLogLeast | creme/model_selection/sh.py:33 | no exponent below c has eta^k >= n |
| BudgetPlanner.RungLength | creme/model_selection/sh.py:33 | r is the floor of budget / (s * c): r * s * c <= budget < (r + 1) * s * c |
| BudgetPlanner.RungLengthGrows | creme/model_selection/sh.py:93 | with a non-negative budget, fewer active candidates never get a shorter rung |
| Ranking.Better | creme/model_selection/sh.py:59-60 | strictly greater when bigger is better, strictly smaller otherwise; equal values are never better |
| Ranking.Insert | creme/model_selection/sh.py:71-75 | insertion into a best-first list adds one element and stays within the candidates |
| Ranking.SortBest | creme/model_selection/sh.py:71-75 | the sorted prefix has the same length and stays within the candidates |
| Ranking.InsertPermutes | creme/model_selection/sh.py:71-75 | insertion adds exactly the inserted candidate and loses none |
| Ranking.SortBestPermutes | creme/model_selection/sh.py:71-75 | the sorted prefix is a permutation of the old prefix |
| Ranking.InsertBestFirst | creme/model_selection/sh.py:71-75 | inserting into a best-first list keeps it best-first |
| Ranking.SortBestOrdered | creme/model_selection/sh.py:71-75 | no candidate of the sorted prefix is strictly better than one before it (descending when bigger is better, else ascending) |
| Ranking.SortBestStable | creme/model_selection/sh.py:71-75 | for each metric value, the candidates holding it keep their prior relative order |
| Ranking.Iota | creme/model_selection/sh.py:32 | the initial ranking has one entry per candidate |
| Ranking.IotaEntries | creme/model_selection/sh.py:32 | the initial ranking holds candidate i at position i |
| Ranking.SnocCount | creme/model_selection/sh.py:32 | appending a candidate adds one occurrence of it and changes no other count |
| Ranking.IotaCount | creme/model_selection/sh.py:32 | the initial ranking holds each of 0..n-1 exactly once and nothing else |
| Ranking.PermutationFacts | creme/model_selection/sh.py:32 | a permutation of 0..n-1 has length n, entries below n and no repeated entry |
| Ranking.PrefixCount | creme/model_selection/sh.py:50 | each candidate occurs at most once among the active candidates |
| Ranking.SortPrefixPermutes | creme/model_selection/sh.py:71-75 | sorting the active prefix in place leaves a permutation of 0..n-1 |
| Rungs.Init | creme/model_selection/sh.py:30-35 | after construction s = n, the counters and the credited budget are 0, and the invariant holds |
| Rungs.Fires | creme/model_selection/sh.py:65 | a rung fires when more than one candidate is active and the incremented cumulative counter equals r exactly |
| Rungs.Tick | creme/model_selection/sh.py:63-68 | one observation increments the counter and never grows s; s shrinks exactly when a rung fires (s > 1 and the incremented counter equals r); otherwise only the counter moves |
| Rungs.RungStep | creme/model_selection/sh.py:67-68 | a rung counts one more rung, credits s * r, keeps ceil(s / eta) candidates with the rung length recomputed for them, and keeps the invariant |
| Rungs.TickKeepsInv | creme/model_selection/sh.py:63-93 | one observation keeps s in 1..n, rungs fired plus rungs still needed equal to c, r the rung length for s, and each rung's credit within budget / c |
| Rungs.Ticks | creme/model_selection/sh.py:63-65 | after k observations the counter has moved by k and s has not grown |
| Rungs.TicksKeepInv | creme/model_selection/sh.py:63-93 | the invariant holds after any number of observations |
| Rungs.TicksAdd | creme/model_selection/sh.py:63 | a + b observations are a observations followed by b |
| Rungs.Quiet | creme/model_selection/sh.py:65 | with one candidate left, or with the counter past r or not reaching it, no rung fires and s, r, the rung count and the credited budget are frozen |
| Rungs.NextRung | creme/model_selection/sh.py:63-65 | the pending rung fires on exactly the observation that brings the cumulative counter to r |
| Rungs.BudgetNeverExceeded | creme/model_selection/sh.py:102-104 | at most c rungs fire, and the budget credited at rungs (line 68) never exceeds a non-negative budget |
| Rungs.ConvergedAfterAllRungs | creme/model_selection/sh.py:65 | one candidate is left exactly when all c rungs have fired |
| Rungs.NoRungWithSmallBudget | creme/model_selection/sh.py:33 | with budget < n * c, r <= 0 and no rung ever fires |
| Rungs.ExampleValid | creme/model_selection/sh.py:33 | 10 candidates, eta = 2, budget 2000 give c = 4 and a first rung length of 50 |
| Rungs.Phase | creme/model_selection/sh.py:63-65 | between rungs only the counter moves |
| Rungs.PhaseFrom | creme/model_selection/sh.py:63-65 | between rungs the active count, the rung count and the credited budget stay as they were |
| Rungs.RungAt | creme/model_selection/sh.py:63-65 | a pending rung fires at the observation that makes the cumulative counter equal r |
| Rungs.RungFrom | creme/model_selection/sh.py:63-68 | from known counters with a rung pending, the counters after the observation that reaches r are those the rung computes |
| Rungs.ExampleRung1 | creme/model_selection/sh.py:173 | after 50 observations: 5 left, r = 100, 1 rung, budget used 500 |
| Rungs.ExampleRung2 | creme/model_selection/sh.py:174 | after 100 observations: 3 left, r = 166, 2 rungs, budget used 1000 |
| Rungs.ExampleRung3 | creme/model_selection/sh.py:175 | after 166 observations: 2 left, r = 250, 3 rungs, budget used 1498 |
| Rungs.ExampleRung4 | creme/model_selection/sh.py:176 | after 250 observations: 1 left, 4 rungs, budget used 1998 |
| Rungs.ExampleTraceEarly | creme/model_selection/sh.py:173-174 | up to 166 observations the example keeps 10, then 5, then 3 candidates, with 0, 500 and 1000 credited |
| Rungs.ExampleTraceLate | creme/model_selection/sh.py:175-176 | from 166 observations on the example keeps 2, then 1 candidate for good, with 1498 and then 1998 credited |
| Rungs.ExampleTrace | creme/model_selection/sh.py:291-294 | for every number of observations, s, the rung count and the credited budget follow the documented trace 10, 5, 3, 2, 1 / 500, 1000, 1498, 1998 |
| Rungs.StallingFirstRung | creme/model_selection/sh.py:92-93 | 3 candidates, eta = 2, budget 6: the first rung fires after one observation and recomputes r = 1 |
| Rungs.StalledForGood | creme/model_selection/sh.py:65 | once the rung length is not beyond the counter, no rung fires again although more than one candidate is active: only the counter moves |
| Rungs.StalledAfter | creme/model_selection/sh.py:65 | the same for counters known after some observations: from there on, every further observation only moves the counter |
| Rungs.StallAfterFirstRung | creme/model_selection/sh.py:65 | after a first rung that leaves two candidates, a rung length of 1 and the counter at 1, every later state differs only in the counter |
| Rungs.StallingTrace | creme/model_selection/sh.py:65 | in that configuration two candidates stay active for good and only one of the c = 2 rungs ever fires |
| Scoring.Visit | creme/model_selection/sh.py:51-61 | a visit sets the candidate's metric, trains it once, logs predict, update and train in that order, and moves the best index to it if and only if it is not the best and is strictly better |
| Scoring.PassCalls | creme/model_selection/sh.py:50-55 | a pass makes three calls per visited candidate |
| Scoring.Pass | creme/model_selection/sh.py:50-61 | a pass logs exactly the calls of its visits, in order |
| Scoring.PassSnoc | creme/model_selection/sh.py:50 | the candidates are visited one after the other, in list order |
| Scoring.PassEffect | creme/model_selection/sh.py:50-61 | a pass rescores exactly the visited candidates, trains each once per occurrence and no other, and ends on the old best or a visited candidate |
| Scoring.PassOverActive | creme/model_selection/sh.py:50-55 | over the active prefix of a ranking, each active candidate is rescored and trained exactly once, and eliminated candidates' metrics and learners are unchanged |
| Scoring.PassCallsOrder | creme/model_selection/sh.py:50-55 | the k-th visited candidate's predict, update and train are calls 3k, 3k+1 and 3k+2: ranking order, scored before trained |
| Scoring.PassFindsBest | creme/model_selection/sh.py:57-61 | over distinct candidates not including the best, the final best is not worse than the old best or than any visited candidate, and its metric is the old best's or one just observed |
| Scoring.RescoredBestGoesStale | creme/model_selection/sh.py:57-61 | when the best is rescored to a worse value, the index stays on it although another candidate is now strictly better |
| ModelSelection.FirstIncompatible | creme/model_selection/sh.py:17-20 | the index of the first model the metric cannot evaluate, every model before it being compatible |
| ModelSelection.PlanFor | creme/model_selection/sh.py:33 | the schedule exists if and only if n >= 2 and eta >= 2; otherwise a math domain error for n = 0 or eta <= 0, and a division by zero for eta = 1 or n = 1 |
| ModelSelection.SuccessiveHalving.constructor | creme/model_selection/sh.py:22-36 | s = n, rankings 0..n-1, every counter 0, best 0, r = floor(budget / (n * c)), independent metric slots at the initial value, and the class invariant |
| ModelSelection.SuccessiveHalving.BestModel | creme/model_selection/sh.py:43-46 | the best model is the model at the best index; predict_one and predict_proba_one delegate to it (lines 212-213, 330-331) |
| ModelSelection.SuccessiveHalving.VisitOne | creme/model_selection/sh.py:51-61 | the fields change as one visit of the candidate prescribes |
| ModelSelection.SuccessiveHalving.VisitAll | creme/model_selection/sh.py:50-61 | the loop over the active candidates changes the fields as one pass prescribes |
| ModelSelection.SuccessiveHalving.Rerank | creme/model_selection/sh.py:71-75 | the active prefix is replaced by its stable best-first sort, the suffix is unchanged, and the ranking stays a permutation |
| ModelSelection.SuccessiveHalving.Rung | creme/model_selection/sh.py:67-68 | the counters take the values a rung prescribes |
| ModelSelection.SuccessiveHalving.Advance | creme/model_selection/sh.py:63-93 | the counters follow one Tick; the ranking is re-sorted exactly when a rung fires; the class invariant is kept |
| ModelSelection.SuccessiveHalving.FitOne | creme/model_selection/sh.py:48-95 | one observation: a pass over the old active prefix in ranking order, then one Tick of the counters, with the prefix re-sorted exactly when a rung fires and the class invariant kept |
| ModelSelection.Construct | creme/model_selection/sh.py:14-41 | fails with the first incompatible model if and only if there is one; otherwise fails exactly when the schedule does, with its error; on success the initial state, and probabilities are used exactly when the last model is a classifier and the metric does not require labels |

## Left out

- Learners and metrics are opaque. A candidate's metric value after its update is a caller-supplied integer, and `metric.works_with`, `metric.requires_labels` and whether a model is a classifier are caller-supplied booleans. Training is a per-candidate counter, and calls into learners and metrics are a ghost log of events.
- The float evaluation of `math.log`, `math.ceil` and `/` at lines 33, 78 and 93 is modelled by the exact integer quantities. Float `log` can overshoot at exact powers, for example `log(125, 5)` evaluates above 3, making `c` one larger than the integer value. Such plans are not modelled.
- Non-integer `eta` (the parameter is documented as an integer) and NaN or other non-integer metric values are not modelled.
- The verbose progress printing at lines 80-89 is output only and is left out.
- `copy.deepcopy` of the metric at line 29 is modelled by each candidate owning an independent metric slot.
- The learners' own `predict_one` and `predict_proba_one` are left out. The selector's delegating methods are modelled only as the lookup `BestModel`.
- Rungs.BudgetNeverExceeded: bounds the budget credited at rungs (`s * r` per rung), not the number of learner updates. After the last rung the remaining candidate keeps being trained on every observation, as the code does.
- ModelSelection.SuccessiveHalving.Advance: re-sorts the active prefix before updating the rung counters, while the source credits the budget first. The two touch disjoint fields, and the sort reads only the metrics and the old active count, so the result is the same.
- Ranking.SortBest: its contract states only length and range. The permutation, ordering and stability are separate lemmas (`SortBestPermutes`, `SortBestOrdered`, `SortBestStable`).
- creme/tree/_nodes/htr_nodes.py is not part of this model (float statistics and calls into leaf models).
